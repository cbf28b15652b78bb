// The DMA port as functions on values.  An action is split into packets that
// all point to one record of how many bytes have been answered; packets wait
// in a transmit list, then are in flight until their response comes.
module DmaPortSpec {
  import opened Chunks

  datatype Packet = Packet(action: nat, chunk: Chunk)

  // DmaReqState: deleted when the last byte has been answered.
  datatype ReqState = ReqState(totBytes: nat, numBytes: nat, hasEvent: bool)

  datatype Port = Port(
    queue: seq<Packet>, pendingCount: nat, inRetry: bool, sendScheduled: bool,
    drainWanted: bool, live: map<nat, ReqState>,
    // the environment and the record of what the port has signalled
    flight: seq<Packet>, started: map<nat, ReqState>,
    completions: multiset<nat>, drainSignals: nat)

  const IDLE_PORT := Port([], 0, false, false, false, map[], [], map[], multiset{}, 0)

  function PacketsOf(action: nat, cs: seq<Chunk>): seq<Packet> {
    seq(|cs|, i requires 0 <= i < |cs| => Packet(action, cs[i]))
  }

  function Remove(s: seq<Packet>, i: nat): seq<Packet>
    requires i < |s|
  {
    s[..i] + s[i + 1..]
  }

  function QueueAction(p: Port, a: nat, addr: nat, size: nat, hasEvent: bool, line: nat): Port
    requires line > 0
  {
    var ps := PacketsOf(a, Split(addr, size, line, 0));
    p.(queue := p.queue + ps, pendingCount := p.pendingCount + |ps|,
       live := p.live[a := ReqState(size, 0, hasEvent)],
       started := p.started[a := ReqState(size, 0, hasEvent)])
  }

  function TrySendTimingReq(p: Port, taken: bool): Port
    requires p.queue != []
  {
    if taken then
      p.(inRetry := false, queue := p.queue[1..], flight := p.flight + [p.queue[0]],
         sendScheduled := p.sendScheduled || p.queue[1..] != [])
    else p.(inRetry := true)
  }

  // In timing mode the port sends at once unless a send is already due.
  function SendDma(p: Port, taken: bool): Port
    requires p.queue != []
  {
    if p.inRetry || p.sendScheduled then p else TrySendTimingReq(p, taken)
  }

  predicate CanHandle(p: Port, q: Packet) {
    && p.pendingCount > 0
    && q.action in p.live
    && p.live[q.action].numBytes + q.chunk.size <= p.live[q.action].totBytes
  }

  function Credit(p: Port, q: Packet): ReqState
    requires CanHandle(p, q)
  {
    p.live[q.action].(numBytes := p.live[q.action].numBytes + q.chunk.size)
  }

  predicate Completes(p: Port, q: Packet)
    requires CanHandle(p, q)
  {
    Credit(p, q).numBytes == Credit(p, q).totBytes
  }

  function CreditResp(p: Port, q: Packet): Port
    requires CanHandle(p, q)
  {
    p.(pendingCount := p.pendingCount - 1,
       live := if Completes(p, q) then p.live - {q.action} else p.live[q.action := Credit(p, q)],
       completions := if Completes(p, q) && p.live[q.action].hasEvent
                      then p.completions + multiset{q.action} else p.completions)
  }

  function SignalDrain(p: Port): Port {
    if p.pendingCount == 0 && p.drainWanted
    then p.(drainWanted := false, drainSignals := p.drainSignals + 1) else p
  }

  function HandleResp(p: Port, q: Packet): Port
    requires CanHandle(p, q)
  {
    SignalDrain(CreditResp(p, q))
  }

  datatype Event =
    | Act(action: nat, addr: nat, size: nat, hasEvent: bool, taken: bool)
    | Fire(taken: bool)
    | Retry(taken: bool)
    | Response(index: nat)
    | Drain

  // The device starts actions of positive size, each with a record of its
  // own; the peer answers packets in any order and refuses at will.
  predicate Enabled(p: Port, e: Event) {
    match e
    case Act(a, _, size, _, _) => size > 0 && a !in p.started
    case Fire(_) => p.sendScheduled
    case Retry(_) => p.inRetry
    case Response(i) => i < |p.flight|
    case Drain => true
  }
}
