module IohRuns {
  import opened IohSpec

  // ---- What every step keeps ----

  ghost predicate RowsAreSane(h: Hub) {
    forall r :: 0 <= r < |h.rows| ==>
      && h.rows[r].flags < 2 && (!IsValid(h.rows[r]) ==> h.rows[r].mask == {})
      && forall d :: d in h.rows[r].mask ==> d < |h.tags|
  }

  ghost predicate OneRowEach(h: Hub) {
    forall r, s | 0 <= r < |h.rows| && 0 <= s < |h.rows| ::
      IsValid(h.rows[r]) && IsValid(h.rows[s]) && h.rows[r].dsid == h.rows[s].dsid ==> r == s
  }

  ghost predicate Disjoint(h: Hub) {
    forall r, s, d | 0 <= r < |h.rows| && 0 <= s < |h.rows| ::
      d in h.rows[r].mask && d in h.rows[s].mask ==> r == s
  }

  ghost predicate Unowned(h: Hub, d: nat) {
    forall r :: 0 <= r < |h.rows| ==> d !in h.rows[r].mask
  }

  ghost predicate TagsFollow(h: Hub) {
    && (forall r, d | 0 <= r < |h.rows| && 0 <= d < |h.tags| :: d in h.rows[r].mask ==> h.tags[d] == h.rows[r].dsid)
    && (forall d :: 0 <= d < |h.tags| && Unowned(h, d) ==> h.tags[d] == NO_DSID)
  }

  ghost predicate Inv(h: Hub) {
    RowsAreSane(h) && OneRowEach(h) && Disjoint(h) && TagsFollow(h)
  }

  // ---- The scan ----

  ghost predicate IsRowOf(h: Hub, dsid: nat, r: int) {
    0 <= r < |h.rows| && IsValid(h.rows[r]) && h.rows[r].dsid == dsid
  }

  ghost predicate IsFree(h: Hub, r: int) { 0 <= r < |h.rows| && !IsValid(h.rows[r]) }

  // With no row that reads all ones the scan sees the whole table: it finds
  // the guest's row, or else the first free one.
  lemma {:induction false} ScanFinds(h: Hub, dsid: nat, i: nat, free: int)
    requires RowsAreSane(h) && i <= |h.rows|
    requires forall k :: 0 <= k < i ==> !IsRowOf(h, dsid, k)
    requires if free == -1 then forall k :: 0 <= k < i ==> !IsFree(h, k) else IsFree(h, free)
    ensures var s := Scan(h.rows, dsid, i, free);
            && (s.select == -1 <==> forall k :: 0 <= k < |h.rows| ==> !IsRowOf(h, dsid, k))
            && (s.select != -1 ==> IsRowOf(h, dsid, s.select))
            && (s.select == -1 ==> if s.free == -1 then forall k :: 0 <= k < |h.rows| ==> !IsFree(h, k)
                                   else IsFree(h, s.free))
    decreases |h.rows| - i
  {
    if i < |h.rows| {
      assert h.rows[i].flags < 2;
      if IsRowOf(h, dsid, i) {
      } else {
        ScanFinds(h, dsid, i + 1, if !IsValid(h.rows[i]) && free == -1 then i else free);
      }
    }
  }

  lemma {:induction false} MaskIsRow(h: Hub, dsid: nat, r: nat, i: nat)
    requires OneRowEach(h) && i <= |h.rows|
    requires IsRowOf(h, dsid, r) && i <= r
    ensures MaskFrom(h.rows, dsid, i) == h.rows[r].mask
    decreases |h.rows| - i
  {
    if i < r {
      MaskIsRow(h, dsid, r, i + 1);
    }
  }

  lemma {:induction false} NoRowNoMask(h: Hub, dsid: nat, i: nat)
    requires i <= |h.rows| && forall k :: 0 <= k < |h.rows| ==> !IsRowOf(h, dsid, k)
    ensures MaskFrom(h.rows, dsid, i) == {}
    decreases |h.rows| - i
  {
    if i < |h.rows| {
      assert !IsRowOf(h, dsid, i);
      NoRowNoMask(h, dsid, i + 1);
    }
  }

  // ---- One row changes ----

  // The devices that the row gains belong to nobody else.
  ghost predicate GainsAreFree(h: Hub, r: nat, row: Row)
    requires r < |h.rows|
  {
    forall k, d | 0 <= k < |h.rows| && k != r :: d in h.rows[k].mask ==> d !in row.mask
  }

  lemma UpdateKeepsTags(h: Hub, r: nat, row: Row)
    requires Inv(h) && r < |h.rows| && GainsAreFree(h, r, row) && IsValid(row)
    requires h.rows[r].mask == {} || h.rows[r].dsid == row.dsid
    ensures TagsFollow(UpdateRow(h, r, row))
  {
    var h' := UpdateRow(h, r, row);
    forall k, d | 0 <= k < |h'.rows| && 0 <= d < |h'.tags| && d in h'.rows[k].mask
      ensures h'.tags[d] == h'.rows[k].dsid
    {
      if k != r {
        assert d in h.rows[k].mask;
        assert d !in row.mask && d !in h.rows[r].mask;
      }
    }
    forall d | 0 <= d < |h'.tags| && Unowned(h', d)
      ensures h'.tags[d] == NO_DSID
    {
      assert d !in h'.rows[r].mask;
      if d !in h.rows[r].mask {
        forall k | 0 <= k < |h.rows|
          ensures d !in h.rows[k].mask
        {
          assert d !in h'.rows[k].mask;
        }
        assert Unowned(h, d);
      }
    }
  }

  lemma UpdateKeepsInv(h: Hub, r: nat, row: Row)
    requires Inv(h) && r < |h.rows| && GainsAreFree(h, r, row)
    requires row.flags == 1 && forall d :: d in row.mask ==> d < |h.tags|
    requires forall k :: 0 <= k < |h.rows| && k != r ==> !IsRowOf(h, row.dsid, k)
    requires h.rows[r].mask == {} || h.rows[r].dsid == row.dsid
    ensures Inv(UpdateRow(h, r, row))
  {
    UpdateKeepsTags(h, r, row);
    hide TagsFollow; hide Retag;
    var h' := UpdateRow(h, r, row);
    forall k | 0 <= k < |h.rows| && k != r
      ensures h'.rows[k] == h.rows[k] && !IsRowOf(h, row.dsid, k)
    {}
    forall k, d | 0 <= k < |h.rows| && k != r && d in h.rows[k].mask
      ensures d !in h'.rows[r].mask
    {}
  }

  // What the guests own after one row has changed.
  lemma MaskAfter(h: Hub, r: nat, row: Row, g: nat)
    requires Inv(h) && r < |h.rows| && row.flags == 1 && Inv(UpdateRow(h, r, row))
    requires IsValid(h.rows[r]) ==> h.rows[r].dsid == row.dsid
    ensures MaskOf(UpdateRow(h, r, row), g) == if g == row.dsid then row.mask else MaskOf(h, g)
  {
    var h' := UpdateRow(h, r, row);
    hide Retag; hide TagsFollow; hide Disjoint;
    if g == row.dsid {
      MaskIsRow(h', g, r, 0);
    } else if k :| IsRowOf(h, g, k) {
      assert k != r && IsRowOf(h', g, k);
      MaskIsRow(h, g, k, 0);
      MaskIsRow(h', g, k, 0);
    } else {
      NoRowNoMask(h, g, 0);
      forall k | 0 <= k < |h'.rows|
        ensures !IsRowOf(h', g, k)
      {
        assert !IsRowOf(h, g, k);
      }
      NoRowNoMask(h', g, 0);
    }
  }

  ghost predicate KnownDevices(h: Hub, mask: set<nat>) { forall d :: d in mask ==> d < |h.tags| }

  // No device of the mask belongs to another guest.
  ghost predicate Clean(h: Hub, dsid: nat, mask: set<nat>) {
    forall k, d | 0 <= k < |h.rows| :: d in h.rows[k].mask && d in mask ==> h.rows[k].dsid == dsid
  }

  lemma AssignSteps(h: Hub, dsid: nat, mask: set<nat>, g: nat)
    requires Inv(h) && KnownDevices(h, mask) && Clean(h, dsid, mask)
    ensures var a := Assign(h, dsid, mask);
            && Inv(a.hub) && |a.hub.tags| == |h.tags| && |a.hub.rows| == |h.rows|
            && MaskOf(a.hub, g) == if g == dsid && a.code == OK then MaskOf(h, g) + mask else MaskOf(h, g)
  {
    ScanFinds(h, dsid, 0, -1);
    var s := Scan(h.rows, dsid, 0, -1);
    if mask != {} && (s.select != -1 || s.free != -1) {
      var r, row := Changed(h, dsid, mask);
      hide Scan; hide TagsFollow;
      assert GainsAreFree(h, r, row) by { GainsOf(h, dsid, mask, r, row); }
      hide Disjoint; hide GainsAreFree;
      assert forall k :: 0 <= k < |h.rows| && k != r ==> !IsRowOf(h, dsid, k);
      UpdateKeepsInv(h, r, row);
      MaskAfter(h, r, row, g);
      if g == dsid {
        if s.select != -1 { MaskIsRow(h, dsid, r, 0); } else { NoRowNoMask(h, dsid, 0); }
      }
    }
  }

  lemma Changed(h: Hub, dsid: nat, mask: set<nat>) returns (r: nat, row: Row)
    requires RowsAreSane(h) && mask != {}
    requires Assign(h, dsid, mask).code == OK
    ensures r < |h.rows| && Assign(h, dsid, mask).hub == UpdateRow(h, r, row)
    ensures row.dsid == dsid && row.flags == 1 && row.mask == h.rows[r].mask + mask
    ensures IsRowOf(h, dsid, r) || (IsFree(h, r) && forall k :: 0 <= k < |h.rows| ==> !IsRowOf(h, dsid, k))
  {
    ScanFinds(h, dsid, 0, -1);
    var s := Scan(h.rows, dsid, 0, -1);
    hide Scan;
    if s.select != -1 {
      r := s.select;
      row := h.rows[r].(mask := h.rows[r].mask + mask);
    } else {
      r := s.free;
      row := Row(1, dsid, mask);
    }
  }

  lemma GainsOf(h: Hub, dsid: nat, mask: set<nat>, r: nat, row: Row)
    requires Inv(h) && Clean(h, dsid, mask) && r < |h.rows| && row.mask == h.rows[r].mask + mask
    requires IsRowOf(h, dsid, r) || forall k :: 0 <= k < |h.rows| ==> !IsRowOf(h, dsid, k)
    ensures GainsAreFree(h, r, row)
  {
    forall k, d | 0 <= k < |h.rows| && k != r && d in h.rows[k].mask
      ensures d !in row.mask
    {
      assert d !in h.rows[r].mask;
      assert IsValid(h.rows[k]);
      assert !IsRowOf(h, dsid, k);
    }
  }

  // Clean is exactly what an assignment needs.
  lemma AssignIsSafeIffClean(h: Hub, dsid: nat, mask: set<nat>)
    requires Inv(h) && KnownDevices(h, mask)
    ensures Inv(Assign(h, dsid, mask).hub) <==> (Assign(h, dsid, mask).code != OK || Clean(h, dsid, mask))
  {
    if Clean(h, dsid, mask) {
      AssignSteps(h, dsid, mask, dsid);
    } else if Assign(h, dsid, mask).code == OK {
      var r, row := Changed(h, dsid, mask);
      hide Scan; hide Retag;
      var k, d :| 0 <= k < |h.rows| && d in h.rows[k].mask && d in mask && h.rows[k].dsid != dsid;
      var h' := UpdateRow(h, r, row);
      assert k != r;
      assert d in h'.rows[k].mask && d in h'.rows[r].mask;
      assert !Disjoint(h');
    }
  }

  lemma ReleaseSteps(h: Hub, dsid: nat, mask: set<nat>, g: nat)
    requires Inv(h)
    ensures var a := Release(h, dsid, mask);
            && Inv(a.hub) && |a.hub.tags| == |h.tags| && |a.hub.rows| == |h.rows|
            && (a.code == OK <==> exists r :: IsRowOf(h, dsid, r))
            && MaskOf(a.hub, g) == if g == dsid && a.code == OK && mask == {} then {}
                                   else if g == dsid && a.code == OK then MaskOf(h, g) - mask
                                   else MaskOf(h, g)
  {
    ScanFinds(h, dsid, 0, -1);
    var s := Scan(h.rows, dsid, 0, -1);
    hide Scan;
    if s.select != -1 {
      var r := s.select;
      var row := h.rows[r].(mask := if mask == {} then {} else h.rows[r].mask - mask);
      assert GainsAreFree(h, r, row);
      assert forall k :: 0 <= k < |h.rows| && k != r ==> !IsRowOf(h, dsid, k);
      assert h.rows[r].flags == 1;
      UpdateKeepsInv(h, r, row);
      MaskAfter(h, r, row, g);
      MaskIsRow(h, dsid, r, 0);
    }
  }

  // A release takes away the devices it names, and only these, exactly when
  // it names a known one or there is nothing to take.
  lemma ReleaseIsExactIff(h: Hub, dsid: nat, mask: set<nat>)
    requires Inv(h) && exists r :: IsRowOf(h, dsid, r)
    ensures MaskOf(Release(h, dsid, mask).hub, dsid) == MaskOf(h, dsid) - mask
       <==> (mask != {} || MaskOf(h, dsid) == {})
  {
    ReleaseSteps(h, dsid, mask, dsid);
  }

  // For instance: guest 3 owns two devices and releases a third, unknown one.
  lemma ReleaseOfUnknownClearsAll()
    ensures var h := Hub([Row(1, 3, {0, 1})], [3, 3]);
            && Inv(h) && DeviceMaskOf([0x10, 0x20], [0x30]) == {}
            && MaskOf(h, 3) == {0, 1} && MaskOf(Release(h, 3, DeviceMaskOf([0x10, 0x20], [0x30])).hub, 3) == {}
  {
    var h := Hub([Row(1, 3, {0, 1})], [3, 3]);
    assert DeviceOf([0x10, 0x20], 0x30) == 1 + DeviceOf([0x20], 0x30) == 2;
    assert forall d :: Unowned(h, d) ==> d !in h.rows[0].mask;
    assert IsRowOf(h, 3, 0);
    ReleaseSteps(h, 3, {}, 3);
    MaskIsRow(h, 3, 0, 0);
  }

  // ---- Runs ----

  datatype Event = AssignTo(dsid: nat, pciids: seq<nat>) | ReleaseFrom(dsid: nat, pciids: seq<nat>)

  datatype Logged = Logged(event: Event, code: int)

  datatype State = State(hub: Hub, log: seq<Logged>)

  function Perform(h: Hub, devices: seq<nat>, e: Event): Reply {
    match e
    case AssignTo(dsid, ids) => Assign(h, dsid, DeviceMaskOf(devices, ids))
    case ReleaseFrom(dsid, ids) => Release(h, dsid, DeviceMaskOf(devices, ids))
  }

  ghost predicate Proper(h: Hub, devices: seq<nat>, e: Event) {
    e.AssignTo? ==> Clean(h, e.dsid, DeviceMaskOf(devices, e.pciids))
  }

  ghost predicate Next(s: State, s': State, devices: seq<nat>, e: Event) {
    && Proper(s.hub, devices, e)
    && var a := Perform(s.hub, devices, e);
       s' == State(a.hub, s.log + [Logged(e, a.code)])
  }

  const ZERO_ROW := Row(0, 0, {})

  // From the zeroed table, with no device given to two guests at once.
  ghost predicate IsRun(trace: seq<State>, devices: seq<nat>, entries: nat) {
    && trace != []
    && trace[0].log == [] && |trace[0].hub.rows| == entries && |trace[0].hub.tags| == |devices|
    && (forall r :: 0 <= r < entries ==> trace[0].hub.rows[r] == ZERO_ROW)
    && (forall d :: 0 <= d < |devices| ==> trace[0].hub.tags[d] == NO_DSID)
    && forall k :: 0 <= k < |trace| - 1 ==> Steps(trace[k], trace[k + 1], devices)
  }

  ghost predicate Steps(s: State, s': State, devices: seq<nat>) { exists e :: Next(s, s', devices, e) }

  // The net of what the log says about a guest.
  function Net(log: seq<Logged>, devices: seq<nat>, g: nat): set<nat> {
    if log == [] then {}
    else
      var m, l := Net(log[..|log| - 1], devices, g), log[|log| - 1];
      if l.event.dsid != g || l.code != OK then m
      else if l.event.AssignTo? then m + DeviceMaskOf(devices, l.event.pciids)
      else if DeviceMaskOf(devices, l.event.pciids) == {} then {}
      else m - DeviceMaskOf(devices, l.event.pciids)
  }

  ghost predicate Accounted(s: State, devices: seq<nat>) {
    && Inv(s.hub) && |s.hub.tags| == |devices|
    && forall g :: MaskOf(s.hub, g) == Net(s.log, devices, g)
  }

  lemma StepIsAccounted(s: State, s': State, devices: seq<nat>, e: Event)
    requires Accounted(s, devices) && Next(s, s', devices, e)
    ensures Accounted(s', devices)
  {
    var mask := DeviceMaskOf(devices, e.pciids);
    hide Inv; hide Assign; hide Release;
    forall g
      ensures Inv(s'.hub) && |s'.hub.tags| == |devices| && MaskOf(s'.hub, g) == Net(s'.log, devices, g)
    {
      if e.AssignTo? { AssignSteps(s.hub, e.dsid, mask, g); } else { ReleaseSteps(s.hub, e.dsid, mask, g); }
      assert s'.log[..|s'.log| - 1] == s.log;
    }
    assert Inv(s'.hub) && |s'.hub.tags| == |devices| by {
      if e.AssignTo? { AssignSteps(s.hub, e.dsid, mask, 0); } else { ReleaseSteps(s.hub, e.dsid, mask, 0); }
    }
  }

  lemma StartIsAccounted(s: State, devices: seq<nat>)
    requires s.log == [] && |s.hub.tags| == |devices|
    requires forall r :: 0 <= r < |s.hub.rows| ==> s.hub.rows[r] == ZERO_ROW
    requires forall d :: 0 <= d < |devices| ==> s.hub.tags[d] == NO_DSID
    ensures Accounted(s, devices)
  {
    forall g
      ensures MaskOf(s.hub, g) == {}
    {
      NoRowNoMask(s.hub, g, 0);
    }
  }

  // In every run there is at most one row per guest, no device is in two
  // masks, each guest's mask is the net of its assignments and releases, and
  // DMA carries the owner's number, or 0xFFFF when there is none.
  lemma {:induction false} OwnershipIsSound(trace: seq<State>, devices: seq<nat>, entries: nat)
    requires IsRun(trace, devices, entries)
    ensures Accounted(trace[|trace| - 1], devices)
    decreases |trace|
  {
    hide Accounted; hide Next;
    StartIsAccounted(trace[0], devices);
    if |trace| > 1 {
      var before, k := trace[..|trace| - 1], |trace| - 2;
      assert forall j :: 0 <= j < |before| - 1 ==> Steps(before[j], before[j + 1], devices);
      OwnershipIsSound(before, devices, entries);
      assert Steps(trace[k], trace[k + 1], devices);
      var e :| Next(trace[k], trace[k + 1], devices, e);
      StepIsAccounted(trace[k], trace[k + 1], devices, e);
    }
  }

  // Two guests' masks never meet.
  lemma GuestsShareNothing(trace: seq<State>, devices: seq<nat>, entries: nat, g: nat, g': nat, d: nat)
    requires IsRun(trace, devices, entries) && g != g'
    requires var h := trace[|trace| - 1].hub; d in MaskOf(h, g)
    ensures var h := trace[|trace| - 1].hub;
            d !in MaskOf(h, g') && d < |h.tags| && h.tags[d] == g
  {
    OwnershipIsSound(trace, devices, entries);
    var h := trace[|trace| - 1].hub;
    hide IsRun; hide Net;
    var r := RowWith(h, g, d, 0);
    if d in MaskOf(h, g') { var r' := RowWith(h, g', d, 0); }
  }

  lemma {:induction false} RowWith(h: Hub, g: nat, d: nat, i: nat) returns (r: nat)
    requires i <= |h.rows| && d in MaskFrom(h.rows, g, i)
    ensures IsRowOf(h, g, r) && d in h.rows[r].mask
    decreases |h.rows| - i
  {
    if IsRowOf(h, g, i) { r := i; } else { r := RowWith(h, g, d, i + 1); }
  }

  // ---- Configuration space ----

  // remapAddr lets an access to the configuration space of a device pass
  // only if the guest's mask has a device with that PCI address.
  ghost predicate Sees(h: Hub, devices: seq<nat>, g: nat, pciid: nat) {
    exists d :: d in MaskOf(h, g) && d < |devices| && devices[d] == pciid
  }

  // In every run a guest sees exactly what it has been assigned and has not
  // released, and of devices with addresses of their own nobody else sees it.
  lemma GuestsSeeTheirOwn(trace: seq<State>, devices: seq<nat>, entries: nat, g: nat, g': nat, pciid: nat)
    requires IsRun(trace, devices, entries)
    ensures var st := trace[|trace| - 1];
            && (Sees(st.hub, devices, g, pciid) <==>
                  exists d :: d in Net(st.log, devices, g) && d < |devices| && devices[d] == pciid)
            && (g != g' && (forall i, j :: 0 <= i < j < |devices| ==> devices[i] != devices[j]) ==>
                  !(Sees(st.hub, devices, g, pciid) && Sees(st.hub, devices, g', pciid)))
  {
    OwnershipIsSound(trace, devices, entries);
    var st := trace[|trace| - 1];
    assert MaskOf(st.hub, g) == Net(st.log, devices, g);
    hide Inv; hide MaskOf; hide Net; hide Next;
    if g != g' && Sees(st.hub, devices, g, pciid) {
      var d :| d in MaskOf(st.hub, g) && d < |devices| && devices[d] == pciid;
      GuestsShareNothing(trace, devices, entries, g, g', d);
    }
  }
}
