// What every step of the bridge keeps, and what follows for whole runs.
module BridgeProofs {
  import opened Packets
  import opened BridgeSpec

  // ---- Tickets held in a queue ----

  ghost function QueueTickets(q: seq<Deferred>): multiset<Ticket> {
    if q == [] then multiset{}
    else
      var front := QueueTickets(q[..|q| - 1]);
      var p := q[|q| - 1].pkt;
      if ExpectsResponse(p) && Stamped(p) then front + multiset{StampedTicket(p)} else front
  }

  ghost function ReplyTickets(q: seq<Deferred>): multiset<Ticket> {
    if q == [] then multiset{}
    else ReplyTickets(q[..|q| - 1]) + multiset{ResponseTicket(q[|q| - 1].pkt)}
  }

  function Pkts(q: seq<Deferred>): seq<Packet> {
    seq(|q|, i requires 0 <= i < |q| => q[i].pkt)
  }

  function StampAll(ps: seq<Packet>): seq<Packet> {
    seq(|ps|, i requires 0 <= i < |ps| => Stamp(ps[i]))
  }

  ghost predicate AllStamped(q: seq<Deferred>) {
    forall i :: 0 <= i < |q| && ExpectsResponse(q[i].pkt) ==> Stamped(q[i].pkt)
  }

  lemma {:induction false} QueueTicketsHead(q: seq<Deferred>)
    requires q != [] && AllStamped(q)
    ensures QueueTickets(q) ==
            (if ExpectsResponse(q[0].pkt) then multiset{StampedTicket(q[0].pkt)} else multiset{})
            + QueueTickets(q[1..])
  {
    if |q| > 1 {
      QueueTicketsHead(q[..|q| - 1]);
      assert q[..|q| - 1][1..] == q[1..][..|q| - 2];
    }
  }

  lemma {:induction false} ReplyTicketsHead(q: seq<Deferred>)
    requires q != []
    ensures ReplyTickets(q) == multiset{ResponseTicket(q[0].pkt)} + ReplyTickets(q[1..])
  {
    if |q| > 1 {
      ReplyTicketsHead(q[..|q| - 1]);
      assert q[..|q| - 1][1..] == q[1..][..|q| - 2];
    }
  }

  lemma {:induction false} ReplyTicketsCount(q: seq<Deferred>)
    ensures |ReplyTickets(q)| == |q|
  {
    if q != [] { ReplyTicketsCount(q[..|q| - 1]); }
  }

  lemma QueueTicketsPush(q: seq<Deferred>, p: Packet, when: Tick)
    ensures QueueTickets(q + [Deferred(Stamp(p), when)]) ==
            QueueTickets(q) + (if ExpectsResponse(p) then multiset{RequestTicket(p)} else multiset{})
  {
    var q' := q + [Deferred(Stamp(p), when)];
    assert q'[..|q'| - 1] == q;
    if ExpectsResponse(p) { PopUndoesPush(p, FromBridge(p.src)); }
  }

  lemma ReplyTicketsPush(q: seq<Deferred>, p: Packet, when: Tick)
    ensures ReplyTickets(q + [Deferred(p, when)]) == ReplyTickets(q) + multiset{ResponseTicket(p)}
  {
    var q' := q + [Deferred(p, when)];
    assert q'[..|q'| - 1] == q;
  }

  // ---- The invariant ----

  // Every accepted request that expects a response is in exactly one place,
  // and each one still owed to the requester holds one response credit.
  ghost predicate Conserves(reqQ: seq<Deferred>, respQ: seq<Deferred>, outstanding: nat,
                            issued: multiset<Ticket>, flight: multiset<Ticket>,
                            delivered: multiset<Ticket>)
  {
    && issued == QueueTickets(reqQ) + flight + ReplyTickets(respQ) + delivered
    && outstanding == |QueueTickets(reqQ)| + |flight| + |respQ|
  }

  // A queue has something to send exactly when one driver is armed for it;
  // the driver cannot run before the head is due.
  ghost predicate Driven(now: Tick, q: seq<Deferred>, s: Sender) {
    && (q == [] <==> s == Quiet)
    && (s.Scheduled? ==> now <= s.at && q[0].tick <= s.at)
    && (s == AwaitingRetry ==> q[0].tick <= now)
  }

  // What went in comes out in the same order, stamped on the way down.
  ghost predicate ReqFifo(reqIn: seq<Packet>, reqOut: seq<Packet>, reqQ: seq<Deferred>) {
    StampAll(reqIn) == reqOut + Pkts(reqQ)
  }

  // Responses too, with the destination restored on the way up.
  ghost predicate RespFifo(respIn: seq<Packet>, respOut: seq<Packet>, respQ: seq<Deferred>) {
    && (forall i :: 0 <= i < |respIn| ==> Stamped(respIn[i]))
    && Restored(respIn) == respOut + Pkts(respQ)
  }

  function Restored(ps: seq<Packet>): seq<Packet>
    requires forall i :: 0 <= i < |ps| ==> Stamped(ps[i])
  {
    seq(|ps|, i requires 0 <= i < |ps| => RestoreDest(ps[i]))
  }

  ghost predicate StallJustified(c: Config, b: Bridge) {
    b.retryReq ==> ReqQueueFull(c, b) || RespQueueFull(c, b)
  }

  ghost predicate Inv(c: Config, b: Bridge) {
    && AllStamped(b.reqQ)
    && |b.reqQ| <= c.reqLimit && b.outstanding <= c.respLimit
    && Conserves(b.reqQ, b.respQ, b.outstanding,
                 b.ledger.issued, b.ledger.flight, b.ledger.delivered)
    && Driven(b.now, b.reqQ, b.reqSender)
    && Driven(b.now, b.respQ, b.respSender)
    && ReqFifo(b.ledger.reqIn, b.ledger.reqOut, b.reqQ)
    && RespFifo(b.ledger.respIn, b.ledger.respOut, b.respQ)
    && StallJustified(c, b)
  }

  lemma InitialInv(c: Config, now: Tick)
    ensures Inv(c, Initial(now))
  {
    var b := Initial(now);
    assert StampAll([]) == [] + Pkts([]);
    assert Restored([]) == [] + Pkts([]);
  }

  // ---- Each queue operation keeps its part ----

  function One(p: Packet): multiset<Ticket> {
    if ExpectsResponse(p) then multiset{RequestTicket(p)} else multiset{}
  }

  lemma PushReqConserves(reqQ: seq<Deferred>, respQ: seq<Deferred>, outstanding: nat,
                         issued: multiset<Ticket>, flight: multiset<Ticket>,
                         delivered: multiset<Ticket>, p: Packet, when: Tick)
    requires Conserves(reqQ, respQ, outstanding, issued, flight, delivered)
    ensures Conserves(reqQ + [Deferred(Stamp(p), when)], respQ,
                      if ExpectsResponse(p) then outstanding + 1 else outstanding,
                      issued + One(p), flight, delivered)
  {
    QueueTicketsPush(reqQ, p, when);
  }

  lemma PopReqConserves(reqQ: seq<Deferred>, respQ: seq<Deferred>, outstanding: nat,
                        issued: multiset<Ticket>, flight: multiset<Ticket>,
                        delivered: multiset<Ticket>)
    requires Conserves(reqQ, respQ, outstanding, issued, flight, delivered) && reqQ != [] && AllStamped(reqQ)
    ensures var p := reqQ[0].pkt;
            Conserves(reqQ[1..], respQ, outstanding, issued,
                      if ExpectsResponse(p) then flight + multiset{StampedTicket(p)} else flight,
                      delivered)
  {
    QueueTicketsHead(reqQ);
  }

  lemma PushRespConserves(reqQ: seq<Deferred>, respQ: seq<Deferred>, outstanding: nat,
                          issued: multiset<Ticket>, flight: multiset<Ticket>,
                          delivered: multiset<Ticket>, t: Ticket, p: Packet, when: Tick)
    requires Conserves(reqQ, respQ, outstanding, issued, flight, delivered)
    requires t in flight && AnswersTicket(t, p)
    ensures Conserves(reqQ, respQ + [Deferred(RestoreDest(p), when)], outstanding,
                      issued, flight - multiset{t}, delivered)
  {
    var r := RestoreDest(p);
    assert p.states[1..] == t.states;
    assert ResponseTicket(r) == t;
    ReplyTicketsPush(respQ, r, when);
    assert flight == (flight - multiset{t}) + multiset{t};
  }

  lemma PopRespConserves(reqQ: seq<Deferred>, respQ: seq<Deferred>, outstanding: nat,
                         issued: multiset<Ticket>, flight: multiset<Ticket>,
                         delivered: multiset<Ticket>)
    requires Conserves(reqQ, respQ, outstanding, issued, flight, delivered) && respQ != []
    ensures outstanding > 0
    ensures Conserves(reqQ, respQ[1..], outstanding - 1, issued, flight,
                      delivered + multiset{ResponseTicket(respQ[0].pkt)})
  {
    ReplyTicketsHead(respQ);
  }

  lemma PushReqFifo(reqIn: seq<Packet>, reqOut: seq<Packet>, reqQ: seq<Deferred>, p: Packet, when: Tick)
    requires ReqFifo(reqIn, reqOut, reqQ)
    ensures ReqFifo(reqIn + [p], reqOut, reqQ + [Deferred(Stamp(p), when)])
  {
    assert StampAll(reqIn + [p]) == StampAll(reqIn) + [Stamp(p)];
    assert Pkts(reqQ + [Deferred(Stamp(p), when)]) == Pkts(reqQ) + [Stamp(p)];
  }

  lemma PopReqFifo(reqIn: seq<Packet>, reqOut: seq<Packet>, reqQ: seq<Deferred>)
    requires ReqFifo(reqIn, reqOut, reqQ) && reqQ != []
    ensures ReqFifo(reqIn, reqOut + [reqQ[0].pkt], reqQ[1..])
  {
    assert Pkts(reqQ) == [reqQ[0].pkt] + Pkts(reqQ[1..]);
  }

  lemma PushRespFifo(respIn: seq<Packet>, respOut: seq<Packet>, respQ: seq<Deferred>, p: Packet, when: Tick)
    requires RespFifo(respIn, respOut, respQ) && Stamped(p)
    ensures RespFifo(respIn + [p], respOut, respQ + [Deferred(RestoreDest(p), when)])
  {
    assert Restored(respIn + [p]) == Restored(respIn) + [RestoreDest(p)];
    assert Pkts(respQ + [Deferred(RestoreDest(p), when)]) == Pkts(respQ) + [RestoreDest(p)];
  }

  lemma PopRespFifo(respIn: seq<Packet>, respOut: seq<Packet>, respQ: seq<Deferred>)
    requires RespFifo(respIn, respOut, respQ) && respQ != []
    ensures RespFifo(respIn, respOut + [respQ[0].pkt], respQ[1..])
  {
    assert Pkts(respQ) == [respQ[0].pkt] + Pkts(respQ[1..]);
  }

  // ---- Each function of the bridge keeps the invariant ----

  lemma RecvTimingReqInv(c: Config, b: Bridge, p: Packet)
    requires Inv(c, b) && !b.retryReq
    ensures Inv(c, RecvTimingReq(c, b, p))
  {
    hide Conserves; hide ReqFifo; hide RespFifo;
    if CanAccept(c, b, p) {
      var when := EdgeAfter(c, b.now, c.reqDelay);
      var l := b.ledger;
      PushReqConserves(b.reqQ, b.respQ, b.outstanding, l.issued, l.flight, l.delivered, p, when);
      PushReqFifo(l.reqIn, l.reqOut, b.reqQ, p, when);
      assert RecvTimingReq(c, b, p).ledger.issued == l.issued + One(p);
    }
  }

  lemma {:induction false} OfferAllInv(c: Config, b: Bridge, ps: seq<Packet>)
    requires Inv(c, b)
    ensures var b' := OfferAll(c, b, ps);
            && Inv(c, b')
            && b'.respQ == b.respQ && b'.respSender == b.respSender && b'.now == b.now
            && b'.outstanding >= b.outstanding
            && b'.ledger.retriesSent == b.ledger.retriesSent
    decreases |ps|
  {
    hide Conserves; hide ReqFifo; hide RespFifo;
    if ps != [] && !b.retryReq {
      RecvTimingReqInv(c, b, ps[0]);
      OfferAllInv(c, RecvTimingReq(c, b, ps[0]), ps[1..]);
    }
  }

  // The part of the invariant that the ports rely on within one call.
  ghost predicate Armed(b: Bridge) {
    && (b.reqQ == [] <==> b.reqSender == Quiet)
    && (b.respQ == [] <==> b.respSender == Quiet)
    && |b.respQ| <= b.outstanding
    && AllStamped(b.reqQ)
  }

  lemma InvIsArmed(c: Config, b: Bridge)
    requires Inv(c, b)
    ensures Armed(b)
    ensures forall t :: t in b.ledger.flight ==> |b.respQ| < b.outstanding <= c.respLimit
  {
    forall t | t in b.ledger.flight
      ensures |b.respQ| < b.outstanding
    {
      assert |b.ledger.flight - multiset{t}| == |b.ledger.flight| - 1;
    }
  }

  lemma RecvKeepsArmed(c: Config, b: Bridge, p: Packet)
    requires Armed(b)
    ensures Armed(RecvTimingReq(c, b, p))
  {}

  lemma {:induction false} OfferAllArmed(c: Config, b: Bridge, ps: seq<Packet>)
    requires Armed(b)
    ensures var b' := OfferAll(c, b, ps);
            Armed(b') && b'.respQ == b.respQ && b'.respSender == b.respSender && b'.now == b.now
    decreases |ps|
  {
    if ps != [] && !b.retryReq {
      RecvKeepsArmed(c, b, ps[0]);
      OfferAllArmed(c, RecvTimingReq(c, b, ps[0]), ps[1..]);
    }
  }

  lemma RetryInv(c: Config, b: Bridge, again: seq<Packet>)
    requires Inv(c, b.(retryReq := false))
    ensures Inv(c, RetryStalledReq(c, b, again))
    ensures RetryStalledReq(c, b, again).ledger.retriesSent ==
            b.ledger.retriesSent + if b.retryReq then 1 else 0
  {
    hide Conserves; hide ReqFifo; hide RespFifo;
    hide OfferAll;
    if b.retryReq {
      OfferAllInv(c, b.(retryReq := false,
                        ledger := b.ledger.(retriesSent := b.ledger.retriesSent + 1)), again);
    } else {
      assert b.(retryReq := false) == b;
    }
  }

  lemma RecvTimingRespInv(c: Config, b: Bridge, t: Ticket, p: Packet)
    requires Inv(c, b) && t in b.ledger.flight && AnswersTicket(t, p)
    ensures Inv(c, RecvTimingResp(c, b, t, p))
  {
    hide Conserves; hide ReqFifo; hide RespFifo;
    var when := EdgeAfter(c, b.now, c.respDelay);
    var l := b.ledger;
    PushRespConserves(b.reqQ, b.respQ, b.outstanding, l.issued, l.flight, l.delivered, t, p, when);
    PushRespFifo(l.respIn, l.respOut, b.respQ, p, when);
  }

  lemma PopReqInv(c: Config, b: Bridge)
    requires Inv(c, b) && b.reqQ != []
    ensures Inv(c, PopReq(c, b).(retryReq := false))
    ensures !ReqQueueFull(c, PopReq(c, b))
  {
    hide Conserves; hide ReqFifo; hide RespFifo;
    var l := b.ledger;
    PopReqConserves(b.reqQ, b.respQ, b.outstanding, l.issued, l.flight, l.delivered);
    PopReqFifo(l.reqIn, l.reqOut, b.reqQ);
  }

  lemma TrySendReqInv(c: Config, b: Bridge, taken: bool, again: seq<Packet>)
    requires Inv(c, b) && b.reqQ != [] && b.reqQ[0].tick <= b.now
    ensures Inv(c, TrySendReq(c, b, taken, again))
  {
    hide Conserves; hide ReqFifo; hide RespFifo;
    hide OfferAll;
    if taken {
      PopReqInv(c, b);
      RetryInv(c, PopReq(c, b), again);
    }
  }

  lemma PopRespInv(c: Config, b: Bridge)
    requires Inv(c, b) && b.respQ != []
    ensures b.outstanding > 0
    ensures Inv(c, PopResp(c, b).(retryReq := b.retryReq && ReqQueueFull(c, b)))
    ensures !RespQueueFull(c, PopResp(c, b))
  {
    hide Conserves; hide ReqFifo; hide RespFifo;
    var l := b.ledger;
    PopRespConserves(b.reqQ, b.respQ, b.outstanding, l.issued, l.flight, l.delivered);
    PopRespFifo(l.respIn, l.respOut, b.respQ);
  }

  lemma TrySendRespInv(c: Config, b: Bridge, taken: bool, during: seq<Packet>, again: seq<Packet>)
    requires Inv(c, b) && b.respQ != [] && b.respQ[0].tick <= b.now
    ensures b.outstanding > 0 && OfferAll(c, b, during).respQ != [] && OfferAll(c, b, during).outstanding > 0
    ensures Inv(c, TrySendResp(c, b, taken, during, again))
  {
    hide Conserves; hide ReqFifo; hide RespFifo;
    hide OfferAll;
    OfferAllInv(c, b, during);
    var b' := OfferAll(c, b, during);
    PopRespInv(c, b);
    PopRespInv(c, b');
    if taken {
      var b'' := PopResp(c, b');
      if !ReqQueueFull(c, b'') {
        RetryInv(c, b'', again);
      } else {
        assert b''.(retryReq := b'.retryReq && ReqQueueFull(c, b')) == b'';
      }
    }
  }

  // ---- Steps and runs ----

  function Apply(c: Config, b: Bridge, e: Event): Bridge
    requires Inv(c, b) && Enabled(b, e)
  {
    match e
    case Advance(t) => b.(now := t)
    case Request(p) => RecvTimingReq(c, b, p)
    case Respond(t, p) => RecvTimingResp(c, b, t, p)
    case FireReq(taken, again) => TrySendReq(c, b, taken, again)
    case RetryReq(taken, again) => TrySendReq(c, b, taken, again)
    case FireResp(taken, during, again) =>
      TrySendRespInv(c, b, taken, during, again);
      TrySendResp(c, b, taken, during, again)
    case RetryResp(taken, during, again) =>
      TrySendRespInv(c, b, taken, during, again);
      TrySendResp(c, b, taken, during, again)
  }

  lemma StepKeepsInv(c: Config, b: Bridge, e: Event)
    requires Inv(c, b) && Enabled(b, e)
    ensures Inv(c, Apply(c, b, e))
  {
    hide Conserves; hide ReqFifo; hide RespFifo;
    match e
    case Advance(_) =>
    case Request(p) => RecvTimingReqInv(c, b, p);
    case Respond(t, p) => RecvTimingRespInv(c, b, t, p);
    case FireReq(taken, again) => TrySendReqInv(c, b, taken, again);
    case RetryReq(taken, again) => TrySendReqInv(c, b, taken, again);
    case FireResp(taken, during, again) => TrySendRespInv(c, b, taken, during, again);
    case RetryResp(taken, during, again) => TrySendRespInv(c, b, taken, during, again);
  }
}
