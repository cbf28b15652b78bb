// The system that starts guests from what the loader has left in the table.
module GuestSystem {
  import opened ByteSeq
  import opened ControlPlane
  import opened BootSpec
  import opened PortProxy
  import opened PageTables

  datatype Startup = UnknownDomain | NotOneCore | BadSegment | Started(cpu: nat)

  // Bit i of the mask.
  predicate InMask(mask: nat, i: nat) {
    if i == 0 then mask % 2 == 1 else InMask(mask / 2, i - 1)
  }

  function Selected(mask: nat, n: nat): seq<nat> {
    if n == 0 then [] else Selected(mask, n - 1) + if InMask(mask, n - 1) then [n - 1] else []
  }

  lemma {:induction false} NoBits(i: nat)
    ensures !InMask(0, i)
  {
    if i > 0 { NoBits(i - 1); }
  }

  lemma {:induction false} BitInMask(d: nat, i: nat)
    ensures InMask(Bit(d), i) <==> i == d
  {
    if d > 0 && i > 0 {
      BitInMask(d - 1, i - 1);
    } else if i > 0 {
      NoBits(i - 1);
    }
  }

  // The mask the loader writes selects one processor, if it exists.
  lemma {:induction false} OneCore(d: nat, n: nat)
    ensures Selected(Bit(d), n) == if d < n then [d] else []
  {
    if n > 0 {
      OneCore(d, n - 1);
      BitInMask(d, n - 1);
    }
  }

  class System {
    const proxy: Proxy
    var tags: seq<nat>          // the DSid of each processor
    var running: set<nat>

    constructor (p: Proxy, processors: nat)
      ensures proxy == p && |tags| == processors && running == {}
    {
      proxy := p;
      tags := seq(processors, _ => 0xFFFF);
      running := {};
    }

    // The search that getCpuMask and getSegment begin with.
    method FindRow(t: Table, dsid: nat) returns (r: int)
      requires SystemTable(t)
      ensures r < 0 <==> HasNoRow(t, dsid)
      ensures r >= 0 ==> IsFirstRowOf(t, dsid, r)
    {
      r := 0;
      while r < |t.params|
        invariant 0 <= r <= |t.params| && forall k :: 0 <= k < r ==> !IsRowOf(t, dsid, k)
      {
        if ValidRow(t.params[r]) && RowDSid(t.params[r]) == dsid {
          assert IsRowOf(t, dsid, r);
          return;
        }
        r := r + 1;
      }
      return -1;
    }

    method SelectCpus(mask: nat) returns (cpus: seq<nat>)
      ensures cpus == Selected(mask, |tags|)
    {
      cpus := [];
      for i := 0 to |tags|
        invariant cpus == Selected(mask, i)
      {
        if InMask(mask, i) {
          cpus := cpus + [i];
        }
      }
    }

    // One segment goes from configuration memory to the guest, if it is in
    // use; it is refused if it does not lie in either memory.
    method WriteOutSegment(t: Table, row: Row, i: nat) returns (ok: bool)
      requires proxy.Valid() && i < SEGMENT_COUNT
      modifies proxy`guests
      ensures proxy.Valid() && proxy.guests == old(proxy.guests)[proxy.DSid := proxy.guests[proxy.DSid]]
      ensures CopyOut(t.memory, row, i, old(proxy.guests[proxy.DSid]))
           == if ok then CopyOut(t.memory, row, i + 1, proxy.guests[proxy.DSid]) else Failed
    {
      hide CopyOut; hide RowSegment; hide Splice;
      ghost var mem := proxy.guests[proxy.DSid];
      CopyOutIs(t.memory, row, i, mem);
      var seg := RowSegment(row, i);
      assert proxy.guests == old(proxy.guests)[proxy.DSid := mem];
      if seg.size != 0 {
        if seg.offset + seg.size > |t.memory| || seg.base + seg.size > |proxy.guests[proxy.DSid]| {
          return false;
        }
        proxy.WriteBlob(seg.base, t.memory[seg.offset..seg.offset + seg.size]);
        assert proxy.guests[proxy.DSid] == Splice(mem, seg.base, t.memory[seg.offset..seg.offset + seg.size]);
        return true;
      }
      return true;
    }

    method CopySegments(t: Table, dsid: nat, ghost r: nat) returns (ok: bool)
      requires SystemTable(t) && IsFirstRowOf(t, dsid, r)
      requires proxy.Valid() && proxy.DSid == dsid
      modifies proxy`guests
      ensures proxy.Valid()
      ensures var c := CopyOut(t.memory, t.params[r], 0, old(proxy.guests[dsid]));
              && (ok <==> c.Copied?)
              && (ok ==> proxy.guests == old(proxy.guests)[dsid := c.mem])
    {
      hide CopyOut; hide RowSegment; hide IsFirstRowOf; hide SystemTable; hide HasNoRow;
      FirstRowIsRow(t, dsid, r);
      ghost var all := CopyOut(t.memory, t.params[r], 0, proxy.guests[dsid]);
      for i := 0 to SEGMENT_COUNT
        invariant proxy.Valid() && proxy.guests == old(proxy.guests)[dsid := proxy.guests[dsid]]
        invariant CopyOut(t.memory, t.params[r], i, proxy.guests[dsid]) == all
      {
        var row := FindRow(t, dsid);
        FirstRowIsOne(t, dsid, r, row);
        ok := WriteOutSegment(t, t.params[row], i);
        if !ok {
          return;
        }
      }
      CopyOutEnds(t.memory, t.params[r], proxy.guests[dsid]);
      return true;
    }

    method StartupLDomain(t: Table, dsid: nat) returns (s: Startup, ghost r: nat, ghost tabled: seq<byte>)
      requires SystemTable(t)
      requires proxy.cacheLineSize > 0 && dsid in proxy.guests && |proxy.guests[dsid]| >= TABLES_END
      modifies this, proxy
      ensures s.UnknownDomain? <==> HasNoRow(t, dsid)
      ensures s.UnknownDomain? || s.NotOneCore? ==> tags == old(tags) && running == old(running)
      ensures s.UnknownDomain? || s.NotOneCore? ==> proxy.guests == old(proxy.guests)
      ensures !s.UnknownDomain? ==> IsFirstRowOf(t, dsid, r)
      ensures !s.UnknownDomain? ==> (s.NotOneCore? <==> |Selected(RowMask(t.params[r]), |old(tags)|)| != 1)
      ensures s.BadSegment? ==> CopyOut(t.memory, t.params[r], 0, tabled) == Failed
      ensures s.Started? || s.BadSegment? ==>
        HoldsTables(tabled) && SameExcept(old(proxy.guests)[dsid], tabled, PML4 / 8, TABLES_END / 8)
      ensures s.Started? ==>
        && Selected(RowMask(t.params[r]), |old(tags)|) == [s.cpu] && s.cpu < |old(tags)|
        && tags == old(tags)[s.cpu := dsid] && running == old(running) + {s.cpu}
      ensures s.Started? ==>
        && CopyOut(t.memory, t.params[r], 0, tabled).Copied?
        && proxy.guests == old(proxy.guests)[dsid := CopyOut(t.memory, t.params[r], 0, tabled).mem]
    {
      hide SameExcept; hide HoldsTables; hide CopyOut; hide SystemTable; hide RowMask; hide IsFirstRowOf;
      r, tabled := 0, [];
      var row := FindRow(t, dsid);
      if row < 0 {
        return UnknownDomain, r, tabled;
      }
      r := row;
      FirstRowIsRow(t, dsid, r);
      var cpus := SelectCpus(RowMask(t.params[row]));
      if |cpus| != 1 {
        return NotOneCore, r, tabled;
      }
      SelectedAreBelow(RowMask(t.params[row]), |tags|);
      tags := tags[cpus[0] := dsid];
      proxy.UpdateDSid(dsid);
      BuildPageTables(proxy);
      tabled := proxy.guests[dsid];
      var ok := CopySegments(t, dsid, r);
      if !ok {
        return BadSegment, r, tabled;
      }
      running := running + {cpus[0]};
      return Started(cpus[0]), r, tabled;
    }
  }

  lemma CopyOutEnds(config: seq<byte>, row: Row, mem: seq<byte>)
    ensures CopyOut(config, row, SEGMENT_COUNT, mem) == Copied(mem)
  {}

  lemma CopyOutIs(config: seq<byte>, row: Row, i: nat, mem: seq<byte>)
    requires i < SEGMENT_COUNT
    ensures var s := RowSegment(row, i);
            CopyOut(config, row, i, mem) ==
              if s.size == 0 then CopyOut(config, row, i + 1, mem)
              else if s.offset + s.size > |config| || s.base + s.size > |mem| then Failed
              else CopyOut(config, row, i + 1, Splice(mem, s.base, config[s.offset..s.offset + s.size]))
  {}

  lemma FirstRowIsOne(t: Table, dsid: nat, r: nat, row: int)
    requires SystemTable(t) && IsFirstRowOf(t, dsid, r)
    requires row < 0 <==> HasNoRow(t, dsid)
    requires row >= 0 ==> IsFirstRowOf(t, dsid, row)
    ensures row == r
  {
    assert IsRowOf(t, dsid, r);
  }

  lemma FirstRowIsRow(t: Table, dsid: nat, r: nat)
    requires SystemTable(t) && IsFirstRowOf(t, dsid, r)
    ensures r < |t.params| && |t.params[r]| == ROW_SIZE
  {}

  lemma {:induction false} SelectedAreBelow(mask: nat, n: nat)
    ensures forall k :: 0 <= k < |Selected(mask, n)| ==> Selected(mask, n)[k] < n
  {
    if n > 0 { SelectedAreBelow(mask, n - 1); }
  }
}
