// What one step of the memory bridge does, as functions on values.
//
// The state holds the two transmit queues with their send events, the response
// credits and the stalled-request flag, next to a ledger that records what
// the bridge has accepted and handed on.  The peers are an environment: each
// event says what they answered and which requests they re-entered with.
module BridgeSpec {
  import opened Packets

  datatype RawConfig = Config(
    reqLimit: nat, respLimit: nat, reqDelay: nat, respDelay: nat, period: nat)

  type Config = c: RawConfig | c.period > 0 witness Config(0, 0, 0, 0, 1)

  datatype Deferred = Deferred(pkt: Packet, tick: Tick)

  // A transmit queue is driven by at most one of: its own send event, or the
  // retry that its peer owes after refusing the head.
  datatype Sender = Quiet | Scheduled(at: Tick) | AwaitingRetry

  // What identifies an accepted request on its way through the bridge and back.
  datatype Ticket = Ticket(id: nat, src: int, states: seq<SenderState>)

  datatype Ledger = Ledger(
    reqIn: seq<Packet>, reqOut: seq<Packet>,
    respIn: seq<Packet>, respOut: seq<Packet>,
    issued: multiset<Ticket>, flight: multiset<Ticket>, delivered: multiset<Ticket>,
    retriesSent: nat)

  datatype Bridge = Bridge(
    now: Tick,
    reqQ: seq<Deferred>, reqSender: Sender,
    respQ: seq<Deferred>, respSender: Sender,
    outstanding: nat, retryReq: bool,
    ledger: Ledger)

  function Max(a: int, b: int): int { if a < b then b else a }

  // The first clock edge that is not in the past.
  function ClockEdge(c: Config, now: Tick): (r: Tick)
    ensures now <= r < now + c.period
  {
    var q := (now + c.period - 1) / c.period;
    assert q * c.period + (now + c.period - 1) % c.period == now + c.period - 1;
    q * c.period
  }

  function EdgeAfter(c: Config, now: Tick, delay: nat): (r: Tick)
    ensures now <= r
  {
    ClockEdge(c, now) + delay * c.period
  }

  function Initial(now: Tick): Bridge {
    Bridge(now, [], Quiet, [], Quiet, 0, false,
           Ledger([], [], [], [], multiset{}, multiset{}, multiset{}, 0))
  }

  function RequestTicket(p: Packet): Ticket { Ticket(p.id, p.src, p.states) }

  function ResponseTicket(p: Packet): Ticket { Ticket(p.id, p.dest, p.states) }

  // A request that expects a response carries its source in a sender state.
  function Stamp(p: Packet): Packet {
    if ExpectsResponse(p) then Push(p, FromBridge(p.src)) else p
  }

  predicate Stamped(p: Packet) {
    p.states != [] && p.states[0].FromBridge?
  }

  // The ticket of a request as it sits in the request queue.
  function StampedTicket(p: Packet): Ticket
    requires Stamped(p)
  {
    Ticket(p.id, p.states[0].origSrc, p.states[1..])
  }

  function RestoreDest(p: Packet): Packet
    requires Stamped(p)
  {
    Pop(p).(dest := p.states[0].origSrc)
  }

  function Enqueue(sender: Sender, q: seq<Deferred>, when: Tick): Sender {
    if q == [] then Scheduled(when) else sender
  }

  // The send event for what is left of a queue once its head has gone.
  function AfterPop(c: Config, now: Tick, rest: seq<Deferred>): Sender {
    if rest == [] then Quiet else Scheduled(Max(rest[0].tick, ClockEdge(c, now)))
  }

  function SchedTimingReq(b: Bridge, p: Packet, when: Tick): Bridge {
    b.(reqQ := b.reqQ + [Deferred(Stamp(p), when)],
       reqSender := Enqueue(b.reqSender, b.reqQ, when),
       ledger := b.ledger.(
         reqIn := b.ledger.reqIn + [p],
         issued := if ExpectsResponse(p) then b.ledger.issued + multiset{RequestTicket(p)}
                   else b.ledger.issued))
  }

  predicate ReqQueueFull(c: Config, b: Bridge) { |b.reqQ| == c.reqLimit }

  predicate RespQueueFull(c: Config, b: Bridge) { b.outstanding == c.respLimit }

  predicate CanAccept(c: Config, b: Bridge, p: Packet) {
    !ReqQueueFull(c, b) && (ExpectsResponse(p) ==> !RespQueueFull(c, b))
  }

  function RecvTimingReq(c: Config, b: Bridge, p: Packet): Bridge {
    if CanAccept(c, b, p) then
      var b' := if ExpectsResponse(p) then b.(outstanding := b.outstanding + 1) else b;
      SchedTimingReq(b', p, EdgeAfter(c, b.now, c.reqDelay))
    else
      b.(retryReq := true)
  }

  // A peer offers requests in turn and stops at the first that is refused.
  function OfferAll(c: Config, b: Bridge, ps: seq<Packet>): Bridge
    decreases |ps|
  {
    if ps == [] || b.retryReq then b
    else OfferAll(c, RecvTimingReq(c, b, ps[0]), ps[1..])
  }

  // Clear the stall, tell the peer, and let it re-enter with requests.
  function SendRetry(c: Config, b: Bridge, again: seq<Packet>): Bridge {
    OfferAll(c, b.(retryReq := false,
                   ledger := b.ledger.(retriesSent := b.ledger.retriesSent + 1)), again)
  }

  function RetryStalledReq(c: Config, b: Bridge, again: seq<Packet>): Bridge {
    if b.retryReq then SendRetry(c, b, again) else b
  }

  // A response the environment may hand back for ticket t: it still carries
  // the sender-state stack that the request left with.
  predicate AnswersTicket(t: Ticket, p: Packet) {
    p.id == t.id && p.states == [FromBridge(t.src)] + t.states
  }

  function RecvTimingResp(c: Config, b: Bridge, t: Ticket, p: Packet): Bridge
    requires AnswersTicket(t, p)
  {
    var when := EdgeAfter(c, b.now, c.respDelay);
    b.(respQ := b.respQ + [Deferred(RestoreDest(p), when)],
       respSender := Enqueue(b.respSender, b.respQ, when),
       ledger := b.ledger.(flight := b.ledger.flight - multiset{t},
                           respIn := b.ledger.respIn + [p]))
  }

  function PopReq(c: Config, b: Bridge): Bridge
    requires b.reqQ != [] && (ExpectsResponse(b.reqQ[0].pkt) ==> Stamped(b.reqQ[0].pkt))
  {
    var p, rest := b.reqQ[0].pkt, b.reqQ[1..];
    b.(reqQ := rest, reqSender := AfterPop(c, b.now, rest),
       ledger := b.ledger.(
         reqOut := b.ledger.reqOut + [p],
         flight := if ExpectsResponse(p) then b.ledger.flight + multiset{StampedTicket(p)}
                   else b.ledger.flight))
  }

  function TrySendReq(c: Config, b: Bridge, taken: bool, again: seq<Packet>): Bridge
    requires b.reqQ != [] && (ExpectsResponse(b.reqQ[0].pkt) ==> Stamped(b.reqQ[0].pkt))
  {
    if taken then RetryStalledReq(c, PopReq(c, b), again)
    else b.(reqSender := AwaitingRetry)
  }

  function PopResp(c: Config, b: Bridge): Bridge
    requires b.respQ != [] && b.outstanding > 0
  {
    var p, rest := b.respQ[0].pkt, b.respQ[1..];
    b.(respQ := rest, respSender := AfterPop(c, b.now, rest),
       outstanding := b.outstanding - 1,
       ledger := b.ledger.(respOut := b.ledger.respOut + [p],
                           delivered := b.ledger.delivered + multiset{ResponseTicket(p)}))
  }

  // While it takes a response the peer may already issue new requests.
  function TrySendResp(c: Config, b: Bridge, taken: bool,
                       during: seq<Packet>, again: seq<Packet>): Bridge
    requires b.respQ != [] && b.outstanding > 0
    requires var b' := OfferAll(c, b, during); b'.respQ != [] && b'.outstanding > 0
  {
    var b' := OfferAll(c, b, during);
    if !taken then b'.(respSender := AwaitingRetry)
    else
      var b'' := PopResp(c, b');
      if !ReqQueueFull(c, b'') then RetryStalledReq(c, b'', again) else b''
  }

  datatype Event =
    | Advance(to: Tick)
    | Request(req: Packet)
    | Respond(ticket: Ticket, resp: Packet)
    | FireReq(taken: bool, again: seq<Packet>)     // the request send event is due
    | RetryReq(taken: bool, again: seq<Packet>)    // the downstream peer says retry
    | FireResp(taken: bool, during: seq<Packet>, again: seq<Packet>)
    | RetryResp(taken: bool, during: seq<Packet>, again: seq<Packet>)

  // What the clock and the peers may do next.  Nothing here refers to the
  // bridge's own obligations: those are proved, not assumed.
  predicate Enabled(b: Bridge, e: Event) {
    match e
    case Advance(t) =>
      && b.now <= t
      && (b.reqSender.Scheduled? ==> t <= b.reqSender.at)
      && (b.respSender.Scheduled? ==> t <= b.respSender.at)
    case Request(_) => !b.retryReq
    case Respond(t, p) => t in b.ledger.flight && AnswersTicket(t, p)
    case FireReq(_, _) => b.reqSender == Scheduled(b.now)
    case RetryReq(_, _) => b.reqSender == AwaitingRetry
    case FireResp(_, _, _) => b.respSender == Scheduled(b.now)
    case RetryResp(_, _, _) => b.respSender == AwaitingRetry
  }
}
