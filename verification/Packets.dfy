// Memory-system packets, reduced to the fields that the bridge, the address
// mapper and the memory controller read or rewrite.
module Packets {

  type Tick = nat

  // A sender state is pushed on a packet by a component that will see the
  // response and needs to undo what it did to the request.
  datatype SenderState =
    | FromBridge(origSrc: int)
    | FromMapper(origAddr: int)
    | FromMemCtrl(origSrc: int, origAddr: int)
    | Foreign(tag: int)

  // states[0] is the top of the sender-state stack; the payload is the data
  // written or read.
  datatype Packet = Packet(
    id: nat, dsid: nat, addr: int, payload: int, src: int, dest: int,
    needsResponse: bool, memInhibit: bool, states: seq<SenderState>)

  predicate ExpectsResponse(p: Packet) {
    p.needsResponse && !p.memInhibit
  }

  function Push(p: Packet, s: SenderState): Packet {
    p.(states := [s] + p.states)
  }

  function Pop(p: Packet): Packet
    requires p.states != []
  {
    p.(states := p.states[1..])
  }

  lemma PopUndoesPush(p: Packet, s: SenderState)
    ensures Pop(Push(p, s)) == p
  {
    assert ([s] + p.states)[1..] == p.states;
  }
}
