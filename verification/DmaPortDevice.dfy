// The port itself, updated in place.
module DmaPortDevice {
  import opened Chunks
  import opened DmaPortSpec
  import opened DmaPortProofs

  class DmaPort {
    const cacheLineSize: nat
    var transmitList: seq<Packet>
    var pendingCount: nat
    var inRetry: bool
    var sendScheduled: bool
    var drainManager: bool           // one is waiting to be told
    var reqStates: map<nat, ReqState>

    ghost var flight: seq<Packet>
    ghost var started: map<nat, ReqState>
    ghost var completions: multiset<nat>
    ghost var drainSignals: nat

    ghost function Model(): Port
      reads this
    {
      Port(transmitList, pendingCount, inRetry, sendScheduled, drainManager, reqStates,
           flight, started, completions, drainSignals)
    }

    constructor (line: nat)
      requires line > 0
      ensures cacheLineSize == line && Model() == IDLE_PORT
    {
      cacheLineSize := line;
      transmitList, pendingCount, inRetry, sendScheduled := [], 0, false, false;
      drainManager, reqStates := false, map[];
      flight, started, completions, drainSignals := [], map[], multiset{}, 0;
    }

    method QueueDma(pkt: Packet)
      modifies this`transmitList, this`pendingCount
      ensures transmitList == old(transmitList) + [pkt] && pendingCount == old(pendingCount) + 1
    {
      transmitList := transmitList + [pkt];
      pendingCount := pendingCount + 1;
    }

    // The common first part of dmaAction: one record, one packet per chunk.
    method QueueAction(a: nat, addr: nat, size: nat, hasEvent: bool)
      requires cacheLineSize > 0
      modifies this
      ensures Model() == DmaPortSpec.QueueAction(old(Model()), a, addr, size, hasEvent, cacheLineSize)
    {
      reqStates := reqStates[a := ReqState(size, 0, hasEvent)];
      started := started[a := ReqState(size, 0, hasEvent)];
      ghost var all, k := Split(addr, size, cacheLineSize, 0), 0;
      ghost var before := transmitList;
      assert all[0..] == all && PacketsOf(a, all[..0]) == [];
      var complete := 0;
      while complete < size
        invariant 0 <= complete <= size && 0 <= k <= |all|
        invariant all[k..] == Split(addr + complete, size - complete, cacheLineSize, complete)
        invariant transmitList == before + PacketsOf(a, all[..k])
        invariant pendingCount == old(pendingCount) + k
        invariant reqStates == old(reqStates)[a := ReqState(size, 0, hasEvent)]
        invariant started == old(started)[a := ReqState(size, 0, hasEvent)]
        invariant unchanged(this`inRetry, this`sendScheduled, this`drainManager,
                            this`flight, this`completions, this`drainSignals)
        decreases size - complete
      {
        var n := FirstSize(addr + complete, size - complete, cacheLineSize);
        assert all[k..][0] == all[k];
        QueueDma(Packet(a, Chunk(addr + complete, n, complete)));
        complete := complete + n;
        assert all[k + 1..] == all[k..][1..];
        assert PacketsOf(a, all[..k + 1]) == PacketsOf(a, all[..k]) + [Packet(a, all[k])];
        k := k + 1;
      }
      assert all[..k] == all;
    }

    method TrySendTimingReq(taken: bool)
      requires transmitList != []
      requires !sendScheduled
      modifies this`inRetry, this`transmitList, this`sendScheduled, this`flight
      ensures Model() == DmaPortSpec.TrySendTimingReq(old(Model()), taken)
    {
      inRetry := !taken;
      if !inRetry {
        flight := flight + [transmitList[0]];
        transmitList := transmitList[1..];
        if transmitList != [] {
          sendScheduled := true;
        }
      }
    }

    // The event handler and the last part of dmaAction in timing mode.
    method SendDma(taken: bool)
      requires transmitList != []
      modifies this`inRetry, this`transmitList, this`sendScheduled, this`flight
      ensures Model() == DmaPortSpec.SendDma(old(Model()), taken)
    {
      if inRetry || sendScheduled {
        return;
      }
      TrySendTimingReq(taken);
    }

    method CreditResp(pkt: Packet)
      requires CanHandle(Model(), pkt)
      modifies this`pendingCount, this`reqStates, this`completions
      ensures Model() == DmaPortSpec.CreditResp(old(Model()), pkt)
    {
      pendingCount := pendingCount - 1;
      var state := reqStates[pkt.action];
      state := state.(numBytes := state.numBytes + pkt.chunk.size);
      if state.totBytes == state.numBytes {
        if state.hasEvent {
          completions := completions + multiset{pkt.action};
        }
        reqStates := reqStates - {pkt.action};
      } else {
        reqStates := reqStates[pkt.action := state];
      }
    }

    method HandleResp(pkt: Packet)
      requires CanHandle(Model(), pkt)
      modifies this`pendingCount, this`reqStates, this`completions, this`drainManager, this`drainSignals
      ensures Model() == DmaPortSpec.HandleResp(old(Model()), pkt)
    {
      CreditResp(pkt);
      hide DmaPortSpec.CreditResp;
      if pendingCount == 0 && drainManager {
        drainSignals := drainSignals + 1;
        drainManager := false;
      }
    }

    method DmaActionTiming(a: nat, addr: nat, size: nat, hasEvent: bool, taken: bool)
      requires Inv(Model()) && cacheLineSize > 0
      requires Enabled(Model(), Act(a, addr, size, hasEvent, taken))
      modifies this
      ensures Model() == Apply(old(Model()), Act(a, addr, size, hasEvent, taken), cacheLineSize)
    {
      QueueKeepsInv(Model(), a, addr, size, hasEvent, cacheLineSize);
      QueueAction(a, addr, size, hasEvent);
      SendDma(taken);
    }

    method DmaActionAtomic(a: nat, addr: nat, size: nat, hasEvent: bool)
      requires Inv(Model()) && transmitList == [] && cacheLineSize > 0
      requires size > 0 && a !in started
      modifies this
      ensures Accounted(DmaPortSpec.QueueAction(old(Model()), a, addr, size, hasEvent, cacheLineSize))
      ensures Model() == Flush(DmaPortSpec.QueueAction(old(Model()), a, addr, size, hasEvent, cacheLineSize))
    {
      QueueKeepsInv(Model(), a, addr, size, hasEvent, cacheLineSize);
      QueueAction(a, addr, size, hasEvent);
      ghost var queued := Model();
      hide Accounted; hide Flush; hide Inv; hide DmaPortSpec.QueueAction;
      while transmitList != []
        invariant Accounted(Model()) && Flush(Model()) == Flush(queued)
        decreases |transmitList|
      {
        FlushUnfolds(Model());
        var pkt := transmitList[0];
        transmitList := transmitList[1..];
        HandleResp(pkt);
      }
      FlushUnfolds(Model());
    }

    method OnSendEvent(taken: bool)
      requires Inv(Model()) && sendScheduled && cacheLineSize > 0
      modifies this
      ensures Model() == Apply(old(Model()), Fire(taken), cacheLineSize)
    {
      sendScheduled := false;
      SendDma(taken);
    }

    method RecvRetry(taken: bool)
      requires Inv(Model()) && inRetry && cacheLineSize > 0
      modifies this
      ensures Model() == Apply(old(Model()), Retry(taken), cacheLineSize)
    {
      TrySendTimingReq(taken);
    }

    method RecvTimingResp(pkt: Packet, ghost i: nat)
      requires Inv(Model()) && i < |flight| && pkt == flight[i] && cacheLineSize > 0
      modifies this
      ensures Model() == Apply(old(Model()), Response(i), cacheLineSize)
    {
      ResponseIsExpected(Model(), i);
      HandleResp(pkt);
      flight := Remove(flight, i);
    }

    method Drain() returns (count: nat)
      requires Inv(Model()) && cacheLineSize > 0
      modifies this`drainManager
      ensures Model() == Apply(old(Model()), DmaPortSpec.Drain, cacheLineSize)
      ensures count == 0 <==> pendingCount == 0
    {
      if pendingCount == 0 {
        return 0;
      }
      drainManager := true;
      return 1;
    }
  }
}
