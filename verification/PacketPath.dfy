// A request's way down through bridges, address mappers, crossbars and the
// memory controller, and its response's way back.
module PacketPath {
  import opened Packets

  // One guest's memory slice: 2GB.
  const SLICE := 0x8000_0000

  // The guests the memory controller knows.
  predicate KnownGuest(dsid: nat) { dsid < 4 }

  function SliceAddr(dsid: nat, addr: int): int
    requires KnownGuest(dsid)
  {
    addr + dsid * SLICE
  }

  // What a hook makes of the payload of a packet: by address, guest, payload.
  type Hook = (int, nat, int) -> int

  // A crossbar of the system kind (PARDSystemXBar) overwrites the source with
  // its own port number, and of the other hops only a bridge and the memory
  // controller remember what it was.  A tag crossbar saves the source itself
  // and restores it: to a packet it is a bridge.  A mapper has hooks that may
  // rewrite a request before it is sent on and a response that has come back.
  datatype Hop =
    | BridgeHop
    | MapperHop(remap: (int, nat) -> int, pre: Hook, post: Hook)
    | MemCtrlHop
    | CrossbarHop(port: int)

  predicate Serves(h: Hop, p: Packet) { h.MemCtrlHop? ==> KnownGuest(p.dsid) }

  function NewAddr(h: Hop, p: Packet): int
    requires Serves(h, p)
  {
    match h
    case MapperHop(remap, _, _) => remap(p.addr, p.dsid)
    case MemCtrlHop => SliceAddr(p.dsid, p.addr)
    case _ => p.addr
  }

  function NewPayload(h: Hop, p: Packet): int
    requires Serves(h, p)
  {
    if h.MapperHop? then h.pre(NewAddr(h, p), p.dsid, p.payload) else p.payload
  }

  // The state a hop leaves on a request to undo itself with.
  function Mark(h: Hop, p: Packet): SenderState
    requires !h.CrossbarHop?
  {
    match h
    case BridgeHop => FromBridge(p.src)
    case MapperHop(_, _, _) => FromMapper(p.addr)
    case MemCtrlHop => FromMemCtrl(p.src, p.addr)
  }

  // The request as an accepting hop sends it on.
  function Down(h: Hop, p: Packet): Packet
    requires Serves(h, p)
  {
    if h.CrossbarHop? then p.(src := h.port)
    else
      var marked := if ExpectsResponse(p) then Push(p, Mark(h, p)) else p;
      marked.(addr := NewAddr(h, p), payload := NewPayload(h, p))
  }

  predicate CanUndo(h: Hop, p: Packet) {
    h.CrossbarHop? ||
    (p.states != [] &&
     match h
     case BridgeHop => p.states[0].FromBridge?
     case MapperHop(_, _, _) => p.states[0].FromMapper?
     case MemCtrlHop => p.states[0].FromMemCtrl?)
  }

  // The response as an accepting hop sends it back.
  function Up(h: Hop, p: Packet): Packet
    requires CanUndo(h, p)
  {
    match h
    case CrossbarHop(_) => p
    case BridgeHop => Pop(p).(dest := p.states[0].origSrc)
    case MapperHop(_, _, post) => Pop(p).(addr := p.states[0].origAddr, payload := post(p.addr, p.dsid, p.payload))
    case MemCtrlHop => Pop(p).(dest := p.states[0].origSrc, addr := p.states[0].origAddr)
  }

  // The memory answers the port that asked, with some data.
  function Answer(p: Packet, data: int): Packet { p.(dest := p.src, payload := data) }

  ghost predicate AllServe(path: seq<Hop>, dsid: nat) {
    forall i :: 0 <= i < |path| && path[i].MemCtrlHop? ==> KnownGuest(dsid)
  }

  ghost predicate Returns(path: seq<Hop>, p: Packet, data: int)
    requires AllServe(path, p.dsid)
    decreases |path|, 0
  {
    path == [] ||
    (var q := Down(path[0], p);
     Returns(path[1..], q, data) && CanUndo(path[0], RoundTrip(path[1..], q, data)))
  }

  ghost function RoundTrip(path: seq<Hop>, p: Packet, data: int): Packet
    requires AllServe(path, p.dsid) && Returns(path, p, data)
    decreases |path|, 1
  {
    if path == [] then Answer(p, data)
    else Up(path[0], RoundTrip(path[1..], Down(path[0], p), data))
  }

  // What the hooks make of the data on its way back.
  ghost function Back(path: seq<Hop>, p: Packet, data: int): int
    requires AllServe(path, p.dsid)
  {
    if path == [] then data
    else
      var below := Back(path[1..], Down(path[0], p), data);
      if path[0].MapperHop? then path[0].post(NewAddr(path[0], p), p.dsid, below) else below
  }

  predicate SavesSource(h: Hop) { h.BridgeHop? || h.MemCtrlHop? }

  // The source as the first hop that saves it, or the memory, sees it.
  function SavedSource(path: seq<Hop>, src: int): int {
    if path == [] || SavesSource(path[0]) then src
    else SavedSource(path[1..], if path[0].CrossbarHop? then path[0].port else src)
  }

  // For any nesting of components: every hop finds its own mark on the
  // response, and the response arrives with the request's address and
  // sender-state stack, and with the data as the hooks of the mappers leave it.
  // Its destination is the source that the first saving hop saw.
  lemma {:induction false} RoundTripRestores(path: seq<Hop>, p: Packet, data: int)
    requires AllServe(path, p.dsid) && ExpectsResponse(p)
    ensures Returns(path, p, data)
    ensures RoundTrip(path, p, data) == p.(dest := SavedSource(path, p.src), payload := Back(path, p, data),
                                           src := RoundTrip(path, p, data).src)
    decreases |path|
  {
    if path != [] {
      var h, q := path[0], Down(path[0], p);
      RoundTripRestores(path[1..], q, data);
      if !h.CrossbarHop? { PopUndoesPush(p, Mark(h, p)); }
    }
  }

  // A mapper saves no source.  So the response comes back to the requester
  // whatever port numbers the crossbars use exactly when no crossbar sits
  // above the first bridge or memory controller.
  predicate SavedBeforeCrossbar(path: seq<Hop>) {
    path == [] || SavesSource(path[0]) || (!path[0].CrossbarHop? && SavedBeforeCrossbar(path[1..]))
  }

  function Renumber(path: seq<Hop>, port: int): seq<Hop> {
    seq(|path|, i requires 0 <= i < |path| =>
      if path[i].CrossbarHop? then CrossbarHop(port) else path[i])
  }

  lemma {:induction false} SavedSourceLost(path: seq<Hop>, src: int, port: int)
    ensures SavedSource(Renumber(path, port), src) == (if SavedBeforeCrossbar(path) then src else port)
    decreases |path|
  {
    var r := Renumber(path, port);
    if path != [] && !SavesSource(path[0]) {
      assert r[1..] == Renumber(path[1..], port);
      if path[0].CrossbarHop? {
        SavedSourceLost(path[1..], port, port);
      } else {
        SavedSourceLost(path[1..], src, port);
      }
    }
  }

  lemma RenumberServes(path: seq<Hop>, port: int, dsid: nat)
    requires AllServe(path, dsid)
    ensures AllServe(Renumber(path, port), dsid)
  {}

  lemma ResponseFindsRequester(path: seq<Hop>, p: Packet, data: int)
    requires AllServe(path, p.dsid) && ExpectsResponse(p)
    ensures forall port :: AllServe(Renumber(path, port), p.dsid) && Returns(Renumber(path, port), p, data)
    ensures (forall port :: RoundTrip(Renumber(path, port), p, data).dest == p.src)
            <==> SavedBeforeCrossbar(path)
  {
    forall port
      ensures AllServe(Renumber(path, port), p.dsid) && Returns(Renumber(path, port), p, data)
      ensures RoundTrip(Renumber(path, port), p, data).dest
              == if SavedBeforeCrossbar(path) then p.src else port
    {
      RenumberServes(path, port, p.dsid);
      RoundTripRestores(Renumber(path, port), p, data);
      SavedSourceLost(path, p.src, port);
    }
    if !SavedBeforeCrossbar(path) {
      assert RoundTrip(Renumber(path, p.src + 1), p, data).dest == p.src + 1;
    }
  }

  // ---- Refusals ----

  // The packet as a mapper or the memory controller leaves it when the next
  // component refuses the request: the state it pushed is popped again, and
  // so is a foreign one if it pushed none; the address stays remapped and the
  // payload as the hook has left it.
  function Refused(h: Hop, p: Packet): Packet
    requires Serves(h, p) && (h.MapperHop? || h.MemCtrlHop?)
    requires p.needsResponse && p.memInhibit ==> p.states != []
  {
    var popped := if p.needsResponse && p.memInhibit then Pop(p) else p;
    popped.(addr := NewAddr(h, p), payload := NewPayload(h, p))
  }

  lemma RefusalIsInvisible(h: Hop, p: Packet)
    requires Serves(h, p) && (h.MapperHop? || h.MemCtrlHop?)
    requires p.needsResponse && p.memInhibit ==> p.states != []
    ensures Refused(h, p) == p <==>
            NewAddr(h, p) == p.addr && NewPayload(h, p) == p.payload && !(p.needsResponse && p.memInhibit)
  {
    if p.needsResponse && p.memInhibit {
      assert |Pop(p).states| == |p.states| - 1;
    }
  }

  // A refused response: the address and the state are put back, what the hook
  // has done to the payload is not.
  function RefusedUp(h: Hop, p: Packet): Packet
    requires CanUndo(h, p)
  {
    if h.MapperHop? then p.(payload := h.post(p.addr, p.dsid, p.payload)) else p
  }

  // Offered again, it arrives as if there had been no refusal exactly when
  // the hook makes the same of its own result.
  lemma RefusedResponseIsSameIff(h: Hop, p: Packet)
    requires CanUndo(h, p)
    ensures CanUndo(h, RefusedUp(h, p))
    ensures Up(h, RefusedUp(h, p)) == Up(h, p) <==>
            h.MapperHop? ==>
              var x := h.post(p.addr, p.dsid, p.payload); h.post(p.addr, p.dsid, x) == x
  {
    if h.MapperHop? {
      assert RefusedUp(h, p).states == p.states;
      var x := h.post(p.addr, p.dsid, p.payload);
      assert Up(h, RefusedUp(h, p)) == Up(h, p).(payload := h.post(p.addr, p.dsid, x));
    }
  }

  // The packet that a sender offers again after k refusals by the controller.
  function AfterRefusals(p: Packet, k: nat): (r: Packet)
    requires KnownGuest(p.dsid) && ExpectsResponse(p)
    ensures r == p.(addr := r.addr)
  {
    if k == 0 then p else Refused(MemCtrlHop, AfterRefusals(p, k - 1))
  }

  // Each refusal moves the request one more slice up.  The request that is
  // accepted in the end goes to the guest's own address, and its response
  // comes back with the requester's address, only if there was no refusal or
  // the guest is guest 0.
  lemma {:induction false} RefusalsAccumulate(p: Packet, k: nat, data: int)
    requires KnownGuest(p.dsid) && ExpectsResponse(p)
    ensures AfterRefusals(p, k).addr == p.addr + k * (p.dsid * SLICE)
    ensures Down(MemCtrlHop, AfterRefusals(p, k)).addr == SliceAddr(p.dsid, p.addr)
            <==> k == 0 || p.dsid == 0
    ensures Returns([MemCtrlHop], AfterRefusals(p, k), data)
    ensures RoundTrip([MemCtrlHop], AfterRefusals(p, k), data).addr == p.addr <==> k == 0 || p.dsid == 0
  {
    if k > 0 {
      RefusalsAccumulate(p, k - 1, data);
      assert k * (p.dsid * SLICE) == (k - 1) * (p.dsid * SLICE) + p.dsid * SLICE;
    }
    RoundTripRestores([MemCtrlHop], AfterRefusals(p, k), data);
    ProductIsZero(k, p.dsid);
  }

  lemma ProductIsZero(k: nat, d: nat)
    ensures k * (d * SLICE) == 0 <==> k == 0 || d == 0
  {
    if k > 0 && d > 0 {
      assert d * SLICE > 0;
      assert k * (d * SLICE) >= d * SLICE;
    }
  }

  // Two guests meet in physical memory exactly when one of them uses an
  // address past its own slice by the distance between the slices.
  lemma SlicesAreDisjoint(d1: nat, a1: nat, d2: nat, a2: nat)
    requires KnownGuest(d1) && KnownGuest(d2)
    ensures a1 < SLICE && a2 < SLICE && SliceAddr(d1, a1) == SliceAddr(d2, a2) ==> d1 == d2 && a1 == a2
    ensures d1 < d2 ==> (SliceAddr(d1, a1) == SliceAddr(d2, a2) <==> a1 == a2 + (d2 - d1) * SLICE)
  {}
}
