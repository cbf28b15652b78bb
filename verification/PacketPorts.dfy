// The receive functions themselves, which change the packet in place.
module PacketPorts {
  import opened Packets
  import opened PacketPath

  // A packet object, shared by reference between the components.
  class PacketRef {
    var p: Packet

    constructor (p: Packet)
      ensures this.p == p
    {
      this.p := p;
    }
  }

  // PARDMemoryCtrl; `taken` is what the internal port's peer answered.
  method MemCtrlRecvTimingReq(pkt: PacketRef, taken: bool) returns (ok: bool)
    requires KnownGuest(pkt.p.dsid)
    requires pkt.p.needsResponse && pkt.p.memInhibit ==> taken || pkt.p.states != []
    modifies pkt
    ensures ok == taken
    ensures taken ==> pkt.p == Down(MemCtrlHop, old(pkt.p))
    ensures !taken ==> pkt.p == Refused(MemCtrlHop, old(pkt.p))
  {
    var origAddr := pkt.p.addr;
    var needsResponse, memInhibit := pkt.p.needsResponse, pkt.p.memInhibit;
    if !memInhibit && needsResponse {
      pkt.p := Push(pkt.p, FromMemCtrl(pkt.p.src, origAddr));
    }
    pkt.p := pkt.p.(addr := SliceAddr(pkt.p.dsid, origAddr));
    ok := taken;
    if !ok && needsResponse {
      if !memInhibit { PopUndoesPush(old(pkt.p), FromMemCtrl(old(pkt.p).src, origAddr)); }
      pkt.p := Pop(pkt.p);
    }
  }

  method MemCtrlRecvTimingResp(pkt: PacketRef, taken: bool) returns (ok: bool)
    requires CanUndo(MemCtrlHop, pkt.p)
    modifies pkt
    ensures ok == taken
    ensures taken ==> pkt.p == Up(MemCtrlHop, old(pkt.p))
    ensures !taken ==> pkt.p == old(pkt.p)
  {
    var state := pkt.p.states[0];
    pkt.p := Pop(pkt.p);
    var dest, remapped := pkt.p.dest, pkt.p.addr;
    pkt.p := pkt.p.(dest := state.origSrc);
    pkt.p := pkt.p.(addr := state.origAddr);
    ok := taken;
    if !ok {
      pkt.p := Push(pkt.p, state);
      pkt.p := pkt.p.(dest := dest);
      pkt.p := pkt.p.(addr := remapped);
      assert [state] + old(pkt.p).states[1..] == old(pkt.p).states;
    }
  }

  // TagAddrMapper, for any remapping function and any hooks.
  method MapperRecvTimingReq(h: Hop, pkt: PacketRef, taken: bool) returns (ok: bool)
    requires h.MapperHop?
    requires pkt.p.needsResponse && pkt.p.memInhibit ==> taken || pkt.p.states != []
    modifies pkt
    ensures ok == taken
    ensures taken ==> pkt.p == Down(h, old(pkt.p))
    ensures !taken ==> pkt.p == Refused(h, old(pkt.p))
  {
    var origAddr := pkt.p.addr;
    var needsResponse, memInhibit := pkt.p.needsResponse, pkt.p.memInhibit;
    if needsResponse && !memInhibit {
      pkt.p := Push(pkt.p, FromMapper(origAddr));
    }
    pkt.p := pkt.p.(addr := h.remap(origAddr, pkt.p.dsid));
    pkt.p := pkt.p.(payload := h.pre(pkt.p.addr, pkt.p.dsid, pkt.p.payload));
    ok := taken;
    if !ok && needsResponse {
      if !memInhibit { PopUndoesPush(old(pkt.p), FromMapper(origAddr)); }
      pkt.p := Pop(pkt.p);
    }
  }

  method MapperRecvTimingResp(h: Hop, pkt: PacketRef, taken: bool) returns (ok: bool)
    requires h.MapperHop? && CanUndo(h, pkt.p)
    modifies pkt
    ensures ok == taken
    ensures taken ==> pkt.p == Up(h, old(pkt.p))
    ensures !taken ==> pkt.p == RefusedUp(h, old(pkt.p))
  {
    var state, stack := pkt.p.states[0], pkt.p.states;
    var remapped := pkt.p.addr;
    pkt.p := pkt.p.(payload := h.post(pkt.p.addr, pkt.p.dsid, pkt.p.payload));
    pkt.p := pkt.p.(states := stack[1..]);
    pkt.p := pkt.p.(addr := state.origAddr);
    ok := taken;
    if !ok {
      pkt.p := pkt.p.(states := stack);
      pkt.p := pkt.p.(addr := remapped);
    }
  }
}
