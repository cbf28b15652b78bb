// Theorems about whole runs of the bridge.
module BridgeRuns {
  import opened Packets
  import opened BridgeSpec
  import opened BridgeProofs

  // A run: each event is one the clock or a peer may produce in the state
  // that the earlier events led to.
  ghost predicate Feasible(c: Config, b: Bridge, es: seq<Event>)
    requires Inv(c, b)
    decreases |es|
  {
    es == [] ||
    (Enabled(b, es[0]) && (StepKeepsInv(c, b, es[0]); Feasible(c, Apply(c, b, es[0]), es[1..])))
  }

  ghost function After(c: Config, b: Bridge, es: seq<Event>): Bridge
    requires Inv(c, b) && Feasible(c, b, es)
    decreases |es|
  {
    if es == [] then b
    else
      StepKeepsInv(c, b, es[0]);
      After(c, Apply(c, b, es[0]), es[1..])
  }

  lemma {:induction false} RunKeepsInv(c: Config, b: Bridge, es: seq<Event>)
    requires Inv(c, b) && Feasible(c, b, es)
    ensures Inv(c, After(c, b, es))
    decreases |es|
  {
    if es != [] {
      StepKeepsInv(c, b, es[0]);
      RunKeepsInv(c, Apply(c, b, es[0]), es[1..]);
    }
  }

  // The bridge as constructed.
  ghost function Start(c: Config, now: Tick): (b: Bridge)
    ensures Inv(c, b)
  {
    InitialInv(c, now);
    Initial(now)
  }

  // Credits: in every reachable state the counter is the number of accepted
  // requests still owed a response, and no queue passes its limit, although
  // a response is queued without any check.
  lemma CreditsAreConserved(c: Config, now: Tick, es: seq<Event>)
    requires Feasible(c, Start(c, now), es)
    ensures var b := After(c, Start(c, now), es);
            && b.outstanding == |QueueTickets(b.reqQ)| + |b.ledger.flight| + |b.respQ|
            && b.outstanding == |b.ledger.issued| - |b.ledger.delivered|
            && b.outstanding <= c.respLimit
            && |b.respQ| <= c.respLimit && |b.reqQ| <= c.reqLimit
  {
    RunKeepsInv(c, Start(c, now), es);
    var b := After(c, Start(c, now), es);
    ReplyTicketsCount(b.respQ);
  }

  // Wakeups: a stall has a cause that will end; a queue with packets in it
  // has exactly one driver, an empty one has none; a driver that runs finds
  // its head due and a response to send finds a credit to give back.
  lemma NoLostWakeup(c: Config, now: Tick, es: seq<Event>)
    requires Feasible(c, Start(c, now), es)
    ensures var b := After(c, Start(c, now), es);
            && (b.retryReq ==> |b.reqQ| == c.reqLimit || b.outstanding == c.respLimit)
            && (b.reqQ != [] <==> b.reqSender.Scheduled? || b.reqSender.AwaitingRetry?)
            && (b.respQ != [] <==> b.respSender.Scheduled? || b.respSender.AwaitingRetry?)
            && (b.reqSender == Scheduled(b.now) || b.reqSender.AwaitingRetry? ==>
                  b.reqQ != [] && b.reqQ[0].tick <= b.now)
            && (b.respSender == Scheduled(b.now) || b.respSender.AwaitingRetry? ==>
                  b.respQ != [] && b.respQ[0].tick <= b.now && b.outstanding > 0)
  {
    RunKeepsInv(c, Start(c, now), es);
    var b := After(c, Start(c, now), es);
  }

  // Order and identity: requests leave in the order they were accepted,
  // responses in the order they arrived, and every response handed back
  // answers a distinct accepted request, with that request's source as its
  // destination and that request's sender-state stack.
  lemma BridgeIsTransparentFifo(c: Config, now: Tick, es: seq<Event>)
    requires Feasible(c, Start(c, now), es)
    ensures var l := After(c, Start(c, now), es).ledger;
            && l.reqOut <= StampAll(l.reqIn)
            && (forall i :: 0 <= i < |l.respIn| ==> Stamped(l.respIn[i]))
            && l.respOut <= Restored(l.respIn)
            && l.delivered <= l.issued
  {
    RunKeepsInv(c, Start(c, now), es);
    var b := After(c, Start(c, now), es);
  }

  // ---- How long a stalled request can wait ----

  // Sends and responses left before the bridge is empty.
  function Work(b: Bridge): nat {
    3 * |b.reqQ| + 2 * |b.ledger.flight| + |b.respQ|
  }

  // The environment lets a packet make progress.
  predicate Productive(e: Event) {
    match e
    case Advance(_) => false
    case Request(_) => false
    case Respond(_, _) => true
    case FireReq(taken, _) => taken
    case RetryReq(taken, _) => taken
    case FireResp(taken, _, _) => taken
    case RetryResp(taken, _, _) => taken
  }

  function CountProductive(es: seq<Event>): nat {
    if es == [] then 0
    else (if Productive(es[0]) then 1 else 0) + CountProductive(es[1..])
  }

  lemma SendReqWork(c: Config, b: Bridge, taken: bool, again: seq<Packet>)
    requires Inv(c, b) && b.retryReq && b.reqQ != [] && b.reqQ[0].tick <= b.now
    ensures var b' := TrySendReq(c, b, taken, again);
            if taken then b'.ledger.retriesSent > b.ledger.retriesSent
            else b'.retryReq && b'.ledger == b.ledger && Work(b') == Work(b)
  {
    if taken {
      PopReqInv(c, b);
      RetryInv(c, PopReq(c, b), again);
    }
  }

  lemma SendRespWork(c: Config, b: Bridge, taken: bool, during: seq<Packet>, again: seq<Packet>)
    requires Inv(c, b) && b.retryReq && b.respQ != [] && b.respQ[0].tick <= b.now
    ensures OfferAll(c, b, during) == b && b.outstanding > 0
    ensures var b' := TrySendResp(c, b, taken, during, again);
            b'.ledger.retriesSent > b.ledger.retriesSent ||
            (b'.ledger.retriesSent == b.ledger.retriesSent && b'.retryReq &&
             Work(b') == Work(b) - if taken then 1 else 0)
  {
    PopRespInv(c, b);
    if taken {
      var p := PopResp(c, b);
      if !ReqQueueFull(c, p) {
        RetryInv(c, p, again);
      }
    }
  }

  // While a request is stalled, each productive event either sends the retry
  // or uses up work; no other event adds any.
  lemma StalledStep(c: Config, b: Bridge, e: Event)
    requires Inv(c, b) && b.retryReq && Enabled(b, e)
    ensures var b' := Apply(c, b, e);
            b'.ledger.retriesSent > b.ledger.retriesSent ||
            (b'.ledger.retriesSent == b.ledger.retriesSent && b'.retryReq &&
             Work(b') <= Work(b) - if Productive(e) then 1 else 0)
  {
    match e
    case Advance(_) =>
    case Request(_) =>
    case Respond(t, p) =>
      assert |b.ledger.flight - multiset{t}| == |b.ledger.flight| - 1;
    case FireReq(taken, again) => SendReqWork(c, b, taken, again);
    case RetryReq(taken, again) => SendReqWork(c, b, taken, again);
    case FireResp(taken, during, again) => SendRespWork(c, b, taken, during, again);
    case RetryResp(taken, during, again) => SendRespWork(c, b, taken, during, again);
  }

  lemma {:induction false} RetriesNeverUnsent(c: Config, b: Bridge, es: seq<Event>)
    requires Inv(c, b) && Feasible(c, b, es)
    ensures After(c, b, es).ledger.retriesSent >= b.ledger.retriesSent
    decreases |es|
  {
    hide Conserves; hide ReqFifo; hide RespFifo;
    if es != [] {
      var e := es[0];
      StepKeepsInv(c, b, e);
      match e {
        case Advance(_) =>
        case Request(p) =>
        case Respond(_, _) =>
        case FireReq(taken, again) => SendReqRetries(c, b, taken, again);
        case RetryReq(taken, again) => SendReqRetries(c, b, taken, again);
        case FireResp(taken, during, again) => SendRespRetries(c, b, taken, during, again);
        case RetryResp(taken, during, again) => SendRespRetries(c, b, taken, during, again);
      }
      RetriesNeverUnsent(c, Apply(c, b, e), es[1..]);
    }
  }

  lemma SendReqRetries(c: Config, b: Bridge, taken: bool, again: seq<Packet>)
    requires Inv(c, b) && b.reqQ != [] && b.reqQ[0].tick <= b.now
    ensures TrySendReq(c, b, taken, again).ledger.retriesSent >= b.ledger.retriesSent
  {
    if b.retryReq { SendReqWork(c, b, taken, again); }
  }

  lemma SendRespRetries(c: Config, b: Bridge, taken: bool, during: seq<Packet>, again: seq<Packet>)
    requires Inv(c, b) && b.respQ != [] && b.respQ[0].tick <= b.now
    ensures b.outstanding > 0 && OfferAll(c, b, during).respQ != [] && OfferAll(c, b, during).outstanding > 0
    ensures TrySendResp(c, b, taken, during, again).ledger.retriesSent >= b.ledger.retriesSent
  {
    TrySendRespInv(c, b, taken, during, again);
    OfferAllInv(c, b, during);
    var b' := OfferAll(c, b, during);
    if b'.retryReq {
      SendRespWork(c, b', taken, [], again);
      assert TrySendResp(c, b', taken, [], again) == TrySendResp(c, b, taken, during, again);
    }
  }

  // From any reachable state with a stalled request, the retry is sent before
  // the peers have let more packets through than the bridge was holding.
  lemma {:induction false} StallIsBounded(c: Config, b: Bridge, es: seq<Event>)
    requires Inv(c, b) && b.retryReq && Feasible(c, b, es)
    requires After(c, b, es).ledger.retriesSent == b.ledger.retriesSent
    ensures CountProductive(es) <= Work(b)
    ensures After(c, b, es).retryReq
    decreases |es|
  {
    if es != [] {
      StepKeepsInv(c, b, es[0]);
      StalledStep(c, b, es[0]);
      RetriesNeverUnsent(c, Apply(c, b, es[0]), es[1..]);
      StallIsBounded(c, Apply(c, b, es[0]), es[1..]);
    }
  }

  // And it cannot come to rest before that: with room for at least one packet
  // each way, a stalled bridge always holds a packet that some driver, or the
  // downstream side, is bound to move.
  lemma StalledBridgeIsNotStuck(c: Config, b: Bridge)
    requires Inv(c, b) && b.retryReq && c.reqLimit > 0 && c.respLimit > 0
    ensures Work(b) > 0
    ensures b.reqSender != Quiet || b.respSender != Quiet || b.ledger.flight != multiset{}
  {
    if b.reqQ == [] && b.respQ == [] {
      assert |QueueTickets(b.reqQ)| == 0;
      assert |b.ledger.flight| == b.outstanding == c.respLimit;
    }
  }
}
