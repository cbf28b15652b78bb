// The memory bridge: a slave port and a master port that share two transmit
// lists, a credit counter and a stall flag, all updated in place.  Every
// method is proved to take the step that BridgeSpec says it takes.
//
// A call out of the bridge is an argument: `taken` is what the peer's receive
// function answered, `again` and `during` are the requests it re-entered with.
module BridgeDevice {
  import opened Packets
  import opened BridgeSpec
  import opened BridgeProofs

  datatype When = Never | At(tick: Tick)

  class XBridge {
    const config: Config
    var now: Tick

    // master port: requests waiting to go downstream
    var requests: seq<Deferred>
    var requestEvent: When
    ghost var requestRefused: bool

    // slave port: responses waiting to go upstream
    var responses: seq<Deferred>
    var responseEvent: When
    ghost var responseRefused: bool
    var outstandingResponses: nat
    var retryReq: bool

    ghost var ledger: Ledger

    ghost function SenderOf(event: When, refused: bool): Sender {
      if event.At? then Scheduled(event.tick) else if refused then AwaitingRetry else Quiet
    }

    ghost function Model(): Bridge
      reads this
    {
      Bridge(now, requests, SenderOf(requestEvent, requestRefused),
             responses, SenderOf(responseEvent, responseRefused),
             outstandingResponses, retryReq, ledger)
    }

    // What the methods need of each other; the full invariant of the protocol
    // is proved of Model() in BridgeProofs.
    ghost predicate Valid()
      reads this
    {
      && Armed(Model())
      && !(requestEvent.At? && requestRefused)
      && !(responseEvent.At? && responseRefused)
    }

    constructor (c: Config, start: Tick)
      ensures config == c && Valid() && Model() == Initial(start)
    {
      config, now := c, start;
      requests, requestEvent, requestRefused := [], Never, false;
      responses, responseEvent, responseRefused := [], Never, false;
      outstandingResponses, retryReq := 0, false;
      ledger := Initial(start).ledger;
    }

    // Scheduling an event that is already scheduled is an error of the
    // simulator, hence the precondition.
    method ScheduleRequestEvent(when: Tick)
      requires requestEvent == Never && now <= when
      modifies this`requestEvent
      ensures requestEvent == At(when)
    {
      requestEvent := At(when);
    }

    method ScheduleResponseEvent(when: Tick)
      requires responseEvent == Never && now <= when
      modifies this`responseEvent
      ensures responseEvent == At(when)
    {
      responseEvent := At(when);
    }

    method SchedTimingReq(pkt: Packet, when: Tick)
      requires !requestRefused || requests != []
      requires requests == [] ==> requestEvent == Never
      requires now <= when && |requests| != config.reqLimit
      modifies this`requests, this`requestEvent, this`ledger
      ensures Model() == BridgeSpec.SchedTimingReq(old(Model()), pkt, when)
      ensures requestEvent.At? && requestRefused ==> old(requestEvent.At? && requestRefused)
    {
      var out := pkt;
      if !pkt.memInhibit && pkt.needsResponse {
        out := Push(pkt, FromBridge(pkt.src));
      }
      if requests == [] {
        ScheduleRequestEvent(when);
      }
      requests := requests + [Deferred(out, when)];
      ledger := ledger.(
        reqIn := ledger.reqIn + [pkt],
        issued := if ExpectsResponse(pkt) then ledger.issued + multiset{RequestTicket(pkt)}
                  else ledger.issued);
    }

    method RecvTimingReq(pkt: Packet) returns (ok: bool)
      requires Valid() && !retryReq
      modifies this`requests, this`requestEvent, this`outstandingResponses, this`retryReq, this`ledger
      ensures Valid() && Model() == BridgeSpec.RecvTimingReq(config, old(Model()), pkt)
      ensures ok == CanAccept(config, old(Model()), pkt) == !retryReq
    {
      RecvKeepsArmed(config, Model(), pkt);
      hide AllStamped;
      if |requests| == config.reqLimit {
        retryReq := true;
      } else {
        var expectsResponse := pkt.needsResponse && !pkt.memInhibit;
        if expectsResponse {
          if outstandingResponses == config.respLimit {
            retryReq := true;
          } else {
            outstandingResponses := outstandingResponses + 1;
          }
        }
        if !retryReq {
          SchedTimingReq(pkt, EdgeAfter(config, now, config.reqDelay));
        }
      }
      ok := !retryReq;
    }

    // The upstream peer calls back with requests until one is refused.
    method Reenter(again: seq<Packet>)
      requires Valid()
      modifies this`requests, this`requestEvent, this`outstandingResponses, this`retryReq, this`ledger
      ensures Valid() && Model() == OfferAll(config, old(Model()), again)
    {
      var i := 0;
      while i < |again| && !retryReq
        invariant 0 <= i <= |again| && Valid()
        invariant OfferAll(config, old(Model()), again) == OfferAll(config, Model(), again[i..])
      {
        assert again[i..][0] == again[i] && again[i..][1..] == again[i + 1..];
        var _ := RecvTimingReq(again[i]);
        i := i + 1;
      }
    }

    method SendRetry(again: seq<Packet>)
      requires Valid() && retryReq
      modifies this`requests, this`requestEvent, this`outstandingResponses, this`retryReq, this`ledger
      ensures Valid() && Model() == BridgeSpec.SendRetry(config, old(Model()), again)
    {
      retryReq := false;
      ledger := ledger.(retriesSent := ledger.retriesSent + 1);
      Reenter(again);
    }

    method RetryStalledReq(again: seq<Packet>)
      requires Valid()
      modifies this`requests, this`requestEvent, this`outstandingResponses, this`retryReq, this`ledger
      ensures Valid() && Model() == BridgeSpec.RetryStalledReq(config, old(Model()), again)
    {
      if retryReq {
        SendRetry(again);
      }
    }

    // The state in which a send is tried: the driver that ran is used up.
    ghost predicate SendingRequest()
      reads this
    {
      && requestEvent == Never && !requestRefused
      && requests != [] && Armed(Model().(reqSender := AwaitingRetry))
      && !(responseEvent.At? && responseRefused)
    }

    method TrySendRequest(taken: bool, again: seq<Packet>)
      requires SendingRequest()
      modifies this
      ensures Valid()
      ensures Model() == TrySendReq(config, old(Model()), taken, again)
      ensures now == old(now)
    {
      hide OfferAll;
      ghost var b := Model();
      if taken {
        ledger := ledger.(
          reqOut := ledger.reqOut + [requests[0].pkt],
          flight := if ExpectsResponse(requests[0].pkt)
                    then ledger.flight + multiset{StampedTicket(requests[0].pkt)}
                    else ledger.flight);
        requests := requests[1..];
        if requests != [] {
          ScheduleRequestEvent(Max(requests[0].tick, ClockEdge(config, now)));
        }
        assert Model() == PopReq(config, b);
        RetryStalledReq(again);
      } else {
        requestRefused := true;
      }
    }

    method OnRequestEvent(taken: bool, again: seq<Packet>)
      requires Valid() && requestEvent == At(now)
      modifies this
      ensures Valid() && Model() == TrySendReq(config, old(Model()), taken, again)
    {
      requestEvent := Never;
      TrySendRequest(taken, again);
    }

    method RecvRetryFromDownstream(taken: bool, again: seq<Packet>)
      requires Valid() && requestEvent == Never && requestRefused
      modifies this
      ensures Valid() && Model() == TrySendReq(config, old(Model()), taken, again)
    {
      requestRefused := false;
      TrySendRequest(taken, again);
    }

    // There is no check for space: InvIsArmed shows that the credit reserved
    // with the request is still there.
    method RecvTimingResp(ghost ticket: Ticket, pkt: Packet)
      requires Valid() && ticket in ledger.flight && AnswersTicket(ticket, pkt)
      requires |responses| < outstandingResponses
      modifies this`responses, this`responseEvent, this`ledger
      ensures Valid() && Model() == BridgeSpec.RecvTimingResp(config, old(Model()), ticket, pkt)
    {
      SchedTimingResp(ticket, pkt, EdgeAfter(config, now, config.respDelay));
    }

    method SchedTimingResp(ghost ticket: Ticket, pkt: Packet, when: Tick)
      requires AnswersTicket(ticket, pkt) && when == EdgeAfter(config, now, config.respDelay)
      requires responses == [] ==> responseEvent == Never && !responseRefused
      modifies this`responses, this`responseEvent, this`ledger
      ensures Model() == BridgeSpec.RecvTimingResp(config, old(Model()), ticket, pkt)
      ensures responseEvent.At? && responseRefused ==> old(responseEvent.At? && responseRefused)
    {
      var restored := Pop(pkt).(dest := pkt.states[0].origSrc);
      if responses == [] {
        ScheduleResponseEvent(when);
      }
      responses := responses + [Deferred(restored, when)];
      ledger := ledger.(flight := ledger.flight - multiset{ticket},
                        respIn := ledger.respIn + [pkt]);
    }

    ghost predicate SendingResponse()
      reads this
    {
      && responseEvent == Never && !responseRefused
      && responses != [] && Armed(Model().(respSender := AwaitingRetry))
      && !(requestEvent.At? && requestRefused)
    }

    // The upstream peer takes (or refuses) a response and may issue requests
    // before it returns; they see the response still at the head of its queue.
    method SendTimingResp(during: seq<Packet>)
      requires SendingResponse()
      modifies this
      ensures SendingResponse() && now == old(now) && responses == old(responses)
      ensures Model().(respSender := AwaitingRetry) ==
              OfferAll(config, old(Model()).(respSender := AwaitingRetry), during)
    {
      responseRefused := true;
      Reenter(during);
      responseRefused := false;
    }

    method TrySendResponse(taken: bool, during: seq<Packet>, again: seq<Packet>)
      requires SendingResponse()
      modifies this
      ensures Valid() && now == old(now)
      ensures SendOfResponse(config, old(Model()).(respSender := AwaitingRetry),
                             taken, during, again, Model())
    {
      hide OfferAll; hide AllStamped;
      ghost var b := Model().(respSender := AwaitingRetry);
      OfferAllArmed(config, b, during);
      SendTimingResp(during);
      ghost var b' := Model().(respSender := AwaitingRetry);
      if taken {
        ledger := ledger.(respOut := ledger.respOut + [responses[0].pkt],
                          delivered := ledger.delivered + multiset{ResponseTicket(responses[0].pkt)});
        responses := responses[1..];
        outstandingResponses := outstandingResponses - 1;
        if responses != [] {
          ScheduleResponseEvent(Max(responses[0].tick, ClockEdge(config, now)));
        }
        assert Model() == PopResp(config, b');
        if |requests| != config.reqLimit && retryReq {
          SendRetry(again);
        }
      } else {
        responseRefused := true;
      }
    }

    method OnResponseEvent(taken: bool, during: seq<Packet>, again: seq<Packet>)
      requires Valid() && responseEvent == At(now)
      modifies this
      ensures Valid() && SendOfResponse(config, old(Model()), taken, during, again, Model())
    {
      SenderDoesNotMatter(config, Model(), taken, during, again);
      responseEvent := Never;
      TrySendResponse(taken, during, again);
    }

    method RecvRetryFromUpstream(taken: bool, during: seq<Packet>, again: seq<Packet>)
      requires Valid() && responseEvent == Never && responseRefused
      modifies this
      ensures Valid() && SendOfResponse(config, old(Model()), taken, during, again, Model())
    {
      responseRefused := false;
      TrySendResponse(taken, during, again);
    }
  }

  ghost predicate SendOfResponse(c: Config, b: Bridge, taken: bool,
                                 during: seq<Packet>, again: seq<Packet>, b': Bridge)
  {
    && b.respQ != [] && b.outstanding > 0
    && OfferAll(c, b, during).respQ != [] && OfferAll(c, b, during).outstanding > 0
    && b' == TrySendResp(c, b, taken, during, again)
  }

  lemma {:induction false} OfferKeepsSender(c: Config, b: Bridge, s: Sender, ps: seq<Packet>)
    ensures OfferAll(c, b.(respSender := s), ps) == OfferAll(c, b, ps).(respSender := s)
    decreases |ps|
  {
    if ps != [] && !b.retryReq {
      OfferKeepsSender(c, BridgeSpec.RecvTimingReq(c, b, ps[0]), s, ps[1..]);
      assert BridgeSpec.RecvTimingReq(c, b.(respSender := s), ps[0]) ==
             BridgeSpec.RecvTimingReq(c, b, ps[0]).(respSender := s);
    }
  }

  // A send overwrites the driver that started it, so the result is the same
  // whether the event or the peer's retry did.
  lemma SenderDoesNotMatter(c: Config, b: Bridge, taken: bool, during: seq<Packet>, again: seq<Packet>)
    requires Armed(b) && b.respQ != []
    ensures var b' := b.(respSender := AwaitingRetry);
            && Armed(b') && OfferAll(c, b, during).respQ != [] && OfferAll(c, b, during).outstanding > 0
            && OfferAll(c, b', during).respQ != [] && OfferAll(c, b', during).outstanding > 0
            && TrySendResp(c, b, taken, during, again) == TrySendResp(c, b', taken, during, again)
  {
    hide OfferAll;
    OfferAllArmed(c, b, during);
    OfferKeepsSender(c, b, AwaitingRetry, during);
  }
}
