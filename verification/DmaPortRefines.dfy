// The port as the disk's engine sees it: an action under way is a set of bytes
// still to be answered, responses take some of them away, and the completion
// comes with the last.
module DmaPortRefines {
  import opened ByteSeq
  import opened Chunks
  import opened DmaPortSpec
  import opened DmaPortProofs
  import DmaEngine

  // Packets queued or in flight.
  function Out(p: Port): multiset<Packet> { multiset(p.queue) + multiset(p.flight) }

  // The bytes of an action that a packet carries.
  function Span(q: Packet): (s: set<nat>)
    ensures forall o :: o in s <==> Covers(q.chunk, o)
  {
    Below(q.chunk.offset + q.chunk.size) - Below(q.chunk.offset)
  }

  // Each packet of the action is there once, lies inside it, goes to the right
  // address, and shares no byte with another.
  ghost predicate Tidy(out: multiset<Packet>, a: nat, addr: nat, size: nat) {
    && (forall q | q in out && q.action == a ::
          && out[q] == 1 && q.chunk.size > 0 && q.chunk.offset + q.chunk.size <= size
          && q.chunk.addr == addr + q.chunk.offset)
    && (forall q, r, o: nat | q in out && r in out && q.action == a && r.action == a ::
          Covers(q.chunk, o) && Covers(r.chunk, o) ==> q == r)
  }

  ghost predicate Carries(out: multiset<Packet>, a: nat, o: nat) {
    exists q :: q in out && q.action == a && Covers(q.chunk, o)
  }

  // With these records and packets, action a is the engine's `op`.
  ghost predicate Under(live: map<nat, ReqState>, out: multiset<Packet>, a: nat, op: DmaEngine.Op) {
    && a in live && live[a].totBytes == op.size && Tidy(out, a, op.addr, op.size)
    && (forall o: nat :: o in op.left <==> Carries(out, a, o))
  }

  ghost predicate Simulates(p: Port, a: nat, op: DmaEngine.Op) { Inv(p) && Under(p.live, Out(p), a, op) }

  // ---- What events do to records and packets ----

  lemma Popped(queue: seq<Packet>, flight: seq<Packet>)
    requires queue != []
    ensures multiset(queue[1..]) + multiset(flight + [queue[0]]) == multiset(queue) + multiset(flight)
  {
    assert queue == [queue[0]] + queue[1..];
  }

  lemma SendKeepsOut(p: Port, taken: bool)
    requires p.queue != []
    ensures var p' := TrySendTimingReq(p, taken); Out(p') == Out(p) && p'.live == p.live
    ensures var p' := SendDma(p, taken); Out(p') == Out(p) && p'.live == p.live
  {
    Popped(p.queue, p.flight);
    hide Balanced;
    assert Out(TrySendTimingReq(p, taken)) == Out(p);
  }

  lemma ActIs(p: Port, a: nat, addr: nat, size: nat, hasEvent: bool, taken: bool, line: nat)
    requires Inv(p) && line > 0 && Enabled(p, Act(a, addr, size, hasEvent, taken))
    ensures var p' := Apply(p, Act(a, addr, size, hasEvent, taken), line);
            && Out(p') == Out(p) + multiset(PacketsOf(a, Split(addr, size, line, 0)))
            && p'.live == p.live[a := ReqState(size, 0, hasEvent)]
  {
    hide Balanced; hide Split; hide SendDma;
    QueueKeepsInv(p, a, addr, size, hasEvent, line);
    SendKeepsOut(QueueAction(p, a, addr, size, hasEvent, line), taken);
  }

  lemma Removed(s: seq<Packet>, i: nat)
    requires i < |s|
    ensures multiset(Remove(s, i)) == multiset(s) - multiset{s[i]} && s[i] in multiset(s)
  {
    assert s == s[..i] + [s[i]] + s[i + 1..];
  }

  lemma InFlight(queue: multiset<Packet>, flight: multiset<Packet>, q: Packet)
    requires q in flight
    ensures q in queue + flight && queue + (flight - multiset{q}) == queue + flight - multiset{q}
  {}

  lemma HandleIs(p: Port, q: Packet)
    requires CanHandle(p, q)
    ensures var p' := HandleResp(p, q);
            && p'.queue == p.queue && p'.flight == p.flight && p'.started == p.started
            && (forall a :: a != q.action ==> (a in p'.live <==> a in p.live))
            && (forall a :: a != q.action && a in p.live ==> p'.live[a] == p.live[a])
            && (q.action in p'.live ==> p'.live[q.action].totBytes == p.live[q.action].totBytes)
  {}

  lemma ResponseIs(p: Port, i: nat, line: nat)
    requires Inv(p) && line > 0 && i < |p.flight|
    ensures Enabled(p, Response(i))
    ensures var p', q := Apply(p, Response(i), line), p.flight[i];
            && q in Out(p) && Out(p') == Out(p) - multiset{q} && p'.started == p.started
            && (forall a :: a != q.action ==> (a in p'.live <==> a in p.live))
            && (forall a :: a != q.action && a in p.live ==> p'.live[a] == p.live[a])
            && q.action in p.live
            && (q.action in p'.live ==> p'.live[q.action].totBytes == p.live[q.action].totBytes)
  {
    hide Inv; hide HandleResp; hide Remove;
    ResponseIsExpected(p, i);
    Removed(p.flight, i);
    HandleIs(p, p.flight[i]);
    InFlight(multiset(p.queue), multiset(p.flight), p.flight[i]);
  }

  // ---- The start ----

  lemma {:induction false} NoDuplicates(s: seq<Packet>, q: Packet)
    requires forall i, j :: 0 <= i < |s| && 0 <= j < |s| && s[i] == s[j] ==> i == j
    ensures multiset(s)[q] <= 1
  {
    if s != [] {
      var n := |s| - 1;
      assert s == s[..n] + [s[n]];
      NoDuplicates(s[..n], q);
    }
  }

  lemma TileIsOwn(cs: seq<Chunk>, addr: nat, size: nat, i: nat, j: nat, o: nat)
    requires Tiles(cs, addr, size, 0) && i < |cs| && j < |cs| && Covers(cs[i], o) && Covers(cs[j], o)
    ensures i == j
  {
    TilesStayInside(cs, addr, size, 0);
    TilesCoverOnce(cs, addr, size, 0, o);
  }

  lemma TilesOnce(a: nat, cs: seq<Chunk>, addr: nat, size: nat, q: Packet)
    requires Tiles(cs, addr, size, 0) && q in PacketsOf(a, cs)
    ensures multiset(PacketsOf(a, cs))[q] == 1
  {
    var ps := PacketsOf(a, cs);
    TilesStayInside(cs, addr, size, 0);
    hide Tiles;
    forall i, j | 0 <= i < |ps| && 0 <= j < |ps| && ps[i] == ps[j]
      ensures i == j
    {
      TileIsOwn(cs, addr, size, i, j, cs[i].offset);
    }
    NoDuplicates(ps, q);
  }

  lemma TilesMeet(a: nat, cs: seq<Chunk>, addr: nat, size: nat, q: Packet, r: Packet, o: nat)
    requires Tiles(cs, addr, size, 0) && q in PacketsOf(a, cs) && r in PacketsOf(a, cs)
    requires Covers(q.chunk, o) && Covers(r.chunk, o)
    ensures q == r
  {
    hide Tiles;
    var ps := PacketsOf(a, cs);
    var i :| 0 <= i < |ps| && q == ps[i];
    var j :| 0 <= j < |ps| && r == ps[j];
    TileIsOwn(cs, addr, size, i, j, o);
  }

  lemma TilesAreTidy(a: nat, cs: seq<Chunk>, addr: nat, size: nat)
    requires Tiles(cs, addr, size, 0)
    ensures Tidy(multiset(PacketsOf(a, cs)), a, addr, size)
  {
    hide Tiles; hide Covers;
    var ps := PacketsOf(a, cs);
    TilesStayInside(cs, addr, size, 0);
    forall q | q in multiset(ps)
      ensures multiset(ps)[q] == 1 && exists i :: 0 <= i < |ps| && q == ps[i]
    {
      assert q in ps;
      TilesOnce(a, cs, addr, size, q);
    }
    forall q, r, o: nat | q in multiset(ps) && r in multiset(ps) && Covers(q.chunk, o) && Covers(r.chunk, o)
      ensures q == r
    {
      assert q in ps && r in ps;
      TilesMeet(a, cs, addr, size, q, r, o);
    }
  }

  lemma TilesCarryAll(a: nat, cs: seq<Chunk>, addr: nat, size: nat, o: nat)
    requires Tiles(cs, addr, size, 0)
    ensures Carries(multiset(PacketsOf(a, cs)), a, o) <==> o < size
  {
    var ps := PacketsOf(a, cs);
    TilesStayInside(cs, addr, size, 0);
    if o < size {
      TilesCoverOnce(cs, addr, size, 0, o);
      var i :| 0 <= i < |cs| && Covers(cs[i], o);
      assert ps[i] in multiset(ps) && Covers(ps[i].chunk, o);
    }
    if Carries(multiset(ps), a, o) {
      var q :| q in multiset(ps) && q.action == a && Covers(q.chunk, o);
      assert q in ps;
    }
  }

  lemma NoBytesNoPackets(s: seq<Packet>, a: nat)
    requires Positive(s) && Bytes(s, a) == 0
    ensures forall q :: q in multiset(s) ==> q.action != a
  {
    forall q | q in multiset(s)
      ensures q.action != a
    {
      assert q in s;
      var i :| 0 <= i < |s| && s[i] == q;
      BytesAtLeast(s, i);
    }
  }

  lemma NotStartedNotOut(p: Port, a: nat)
    requires Inv(p) && a !in p.live
    ensures forall q :: q in Out(p) ==> q.action != a
  {
    assert Balanced(p, a);
    NoBytesNoPackets(p.queue, a);
    NoBytesNoPackets(p.flight, a);
  }

  // A new action: all of it is still to come.
  lemma ActionBegins(p: Port, a: nat, addr: nat, size: nat, hasEvent: bool, taken: bool, line: nat,
                     target: DmaEngine.Target, offset: nat)
    requires Inv(p) && line > 0 && Enabled(p, Act(a, addr, size, hasEvent, taken))
    ensures Simulates(Apply(p, Act(a, addr, size, hasEvent, taken), line), a,
                      DmaEngine.Op(target, addr, size, offset, Below(size)))
  {
    hide Apply; hide Inv; hide Tiles; hide Split; hide Tidy; hide Carries; hide Out; hide PacketsOf;
    StepKeepsInv(p, Act(a, addr, size, hasEvent, taken), line);
    ActIs(p, a, addr, size, hasEvent, taken, line);
    Completion(p, a);
    NotStartedNotOut(p, a);
    var ps := multiset(PacketsOf(a, Split(addr, size, line, 0)));
    SplitTiles(addr, size, line, 0);
    TilesAreTidy(a, Split(addr, size, line, 0), addr, size);
    OnlyNewPackets(Out(p), ps, a, addr, size);
    forall o: nat
      ensures o in Below(size) <==> Carries(Out(p) + ps, a, o)
    {
      TilesCarryAll(a, Split(addr, size, line, 0), addr, size, o);
    }
  }

  lemma OnlyNewPackets(before: multiset<Packet>, more: multiset<Packet>, a: nat, addr: nat, size: nat)
    requires forall q :: q in before ==> q.action != a
    requires Tidy(more, a, addr, size)
    ensures Tidy(before + more, a, addr, size)
    ensures forall o: nat :: Carries(before + more, a, o) <==> Carries(more, a, o)
  {
    forall o: nat | Carries(more, a, o)
      ensures Carries(before + more, a, o)
    {
      var q :| q in more && q.action == a && Covers(q.chunk, o);
      assert q in before + more;
    }
  }

  // ---- The steps ----

  // A response of the action takes away the bytes of its chunk, which are not
  // none; the completion comes exactly when no byte is left.
  lemma ResponseMoves(p: Port, a: nat, op: DmaEngine.Op, i: nat, line: nat)
    requires Simulates(p, a, op) && line > 0 && Enabled(p, Response(i)) && p.flight[i].action == a
    ensures var q, p' := p.flight[i], Apply(p, Response(i), line);
            var op' := op.(left := op.left - Span(q));
            && Span(q) <= op.left && Span(q) != {} && (forall o :: o in Span(q) ==> o < op.size)
            && q.chunk.addr == op.addr + q.chunk.offset
            && (a in p'.live <==> op'.left != {})
            && (a in p'.live ==> Simulates(p', a, op'))
            && (a !in p'.live ==> a in p.started && p'.completions[a] == if p.started[a].hasEvent then 1 else 0)
  {
    hide Apply; hide Inv; hide Out; hide Tidy; hide Carries;
    var q, p' := p.flight[i], Apply(p, Response(i), line);
    StepKeepsInv(p, Response(i), line);
    ResponseIs(p, i, line);
    Completion(p, a);
    Completion(p', a);
    PacketIs(Out(p), q, a, op.addr, op.size);
    Taking(Out(p), q, a, op.addr, op.size);
    AnyLeft(p', a, op.addr, op.size);
    var left := op.left - Span(q);
    assert forall o: nat :: o in left <==> Carries(Out(p'), a, o);
    if left != {} {
      var o :| o in left;
      assert Carries(Out(p'), a, o);
    }
  }

  lemma PacketIs(out: multiset<Packet>, q: Packet, a: nat, addr: nat, size: nat)
    requires Tidy(out, a, addr, size) && q in out && q.action == a
    ensures q.chunk.offset in Span(q) && q.chunk.addr == addr + q.chunk.offset
  {}

  lemma Completion(p: Port, a: nat)
    requires Inv(p)
    ensures a in p.live ==> a in p.started
    ensures a !in p.live && a in p.started ==> p.completions[a] == if p.started[a].hasEvent then 1 else 0
  {
    assert Balanced(p, a);
  }

  lemma Taking(out: multiset<Packet>, q: Packet, a: nat, addr: nat, size: nat)
    requires Tidy(out, a, addr, size) && q in out && q.action == a
    ensures Tidy(out - multiset{q}, a, addr, size)
    ensures forall o: nat :: Carries(out - multiset{q}, a, o) <==> Carries(out, a, o) && o !in Span(q)
    ensures forall o :: o in Span(q) ==> Carries(out, a, o) && o < size
  {
    var rest := out - multiset{q};
    assert q !in rest;
    assert forall r :: r in rest ==> r in out && r != q && rest[r] == out[r];
    forall o: nat | Carries(out, a, o) && o !in Span(q)
      ensures Carries(rest, a, o)
    {
      var r :| r in out && r.action == a && Covers(r.chunk, o);
      assert r in rest;
    }
  }

  // Bytes are left exactly while the action is live.
  lemma AnyLeft(p: Port, a: nat, addr: nat, size: nat)
    requires Inv(p) && Tidy(Out(p), a, addr, size)
    ensures a in p.live <==> exists o: nat :: Carries(Out(p), a, o)
  {
    if a in p.live {
      var q := SomePacket(p, a);
      assert Carries(Out(p), a, q.chunk.offset);
    } else {
      NotStartedNotOut(p, a);
    }
  }

  lemma SomePacket(p: Port, a: nat) returns (q: Packet)
    requires Inv(p) && a in p.live
    ensures q in Out(p) && q.action == a && Covers(q.chunk, q.chunk.offset)
  {
    assert Balanced(p, a);
    var s := if Bytes(p.queue, a) > 0 then p.queue else p.flight;
    var i := PacketWithBytes(s, a);
    q := s[i];
    assert q in multiset(s);
  }

  lemma {:induction false} PacketWithBytes(s: seq<Packet>, a: nat) returns (i: nat)
    requires Bytes(s, a) > 0
    ensures i < |s| && s[i].action == a
  {
    if s[|s| - 1].action == a { i := |s| - 1; } else { i := PacketWithBytes(s[..|s| - 1], a); }
  }

  // Every other event leaves the action as it is.
  lemma OthersLeaveAction(p: Port, a: nat, op: DmaEngine.Op, e: Event, line: nat)
    requires Simulates(p, a, op) && line > 0 && Enabled(p, e)
    requires e.Response? ==> p.flight[e.index].action != a
    ensures Simulates(Apply(p, e, line), a, op)
  {
    hide Apply; hide Inv; hide Tidy; hide Carries; hide Out; hide Split; hide PacketsOf;
    StepKeepsInv(p, e, line);
    if e.Act? {
      ActIs(p, e.action, e.addr, e.size, e.hasEvent, e.taken, line);
      assert e.action != a by { Completion(p, a); }
      OtherPackets(e.action, Split(e.addr, e.size, line, 0), a);
      OtherAdded(Out(p), multiset(PacketsOf(e.action, Split(e.addr, e.size, line, 0))), a, op.addr, op.size);
    } else if e.Response? {
      ResponseIs(p, e.index, line);
      OtherTaken(Out(p), p.flight[e.index], a, op.addr, op.size);
    } else if e.Drain? {
      DrainIs(p, line);
    } else {
      SendIs(p, e, line);
    }
  }

  lemma DrainIs(p: Port, line: nat)
    requires Inv(p) && line > 0
    ensures var p' := Apply(p, Drain, line); Out(p') == Out(p) && p'.live == p.live
  {
    hide Balanced;
  }

  lemma SendIs(p: Port, e: Event, line: nat)
    requires Inv(p) && line > 0 && Enabled(p, e) && (e.Fire? || e.Retry?)
    ensures var p' := Apply(p, e, line); Out(p') == Out(p) && p'.live == p.live
  {
    hide Balanced; hide SendDma; hide TrySendTimingReq;
    if e.Fire? { SendKeepsOut(p.(sendScheduled := false), e.taken); } else { SendKeepsOut(p, e.taken); }
  }

  lemma OtherPackets(b: nat, cs: seq<Chunk>, a: nat)
    requires a != b
    ensures forall r :: r in multiset(PacketsOf(b, cs)) ==> r.action != a
  {
    forall r: Packet | r in multiset(PacketsOf(b, cs))
      ensures r.action != a
    {
      assert r in PacketsOf(b, cs);
    }
  }

  lemma OtherAdded(out: multiset<Packet>, more: multiset<Packet>, a: nat, addr: nat, size: nat)
    requires Tidy(out, a, addr, size) && forall q :: q in more ==> q.action != a
    ensures Tidy(out + more, a, addr, size)
    ensures forall o: nat :: Carries(out + more, a, o) <==> Carries(out, a, o)
  {
    forall o: nat | Carries(out, a, o)
      ensures Carries(out + more, a, o)
    {
      var q :| q in out && q.action == a && Covers(q.chunk, o);
      assert q in out + more;
    }
  }

  lemma OtherTaken(out: multiset<Packet>, q: Packet, a: nat, addr: nat, size: nat)
    requires Tidy(out, a, addr, size) && q in out && q.action != a
    ensures Tidy(out - multiset{q}, a, addr, size)
    ensures forall o: nat :: Carries(out - multiset{q}, a, o) <==> Carries(out, a, o)
  {
    var rest := out - multiset{q};
    assert forall r :: r in rest && r != q ==> r in out && rest[r] == out[r];
    forall o: nat | Carries(out, a, o)
      ensures Carries(rest, a, o)
    {
      var r :| r in out && r.action == a && Covers(r.chunk, o);
      assert r in rest;
    }
  }

  // ---- Runs ----

  // The bytes of action a that a run of the port answers.
  ghost function Answered(p: Port, a: nat, es: seq<Event>, line: nat): set<nat>
    requires Inv(p) && line > 0 && Feasible(p, es, line)
    decreases |es|
  {
    if es == [] then {}
    else
      StepKeepsInv(p, es[0], line);
      (if es[0].Response? && p.flight[es[0].index].action == a then Span(p.flight[es[0].index]) else {})
      + Answered(Apply(p, es[0], line), a, es[1..], line)
  }

  lemma OverStaysOver(p: Port, a: nat, e: Event, line: nat)
    requires Inv(p) && line > 0 && Enabled(p, e) && a in p.started && a !in p.live
    ensures var p' := Apply(p, e, line); a in p'.started && a !in p'.live
    ensures e.Response? ==> p.flight[e.index].action != a
  {
    if e.Response? {
      ResponseIs(p, e.index, line);
    } else {
      hide Inv;
    }
  }

  lemma {:induction false} OverAnswersNothing(p: Port, a: nat, es: seq<Event>, line: nat)
    requires Inv(p) && line > 0 && Feasible(p, es, line) && a in p.started && a !in p.live
    ensures Answered(p, a, es, line) == {}
    ensures var p' := After(p, es, line); Inv(p') && a in p'.started && a !in p'.live
    decreases |es|
  {
    hide Inv; hide Apply; hide Enabled;
    if es != [] {
      StepKeepsInv(p, es[0], line);
      OverStaysOver(p, a, es[0], line);
      OverAnswersNothing(Apply(p, es[0], line), a, es[1..], line);
    }
  }

  // Every run of the port, with any other actions, refusals and orders of
  // responses, is for the engine a run that answers bytes of its action, and
  // the completion is there exactly when all of them are answered.
  lemma {:induction false} PortRefinesOracle(p: Port, a: nat, op: DmaEngine.Op, es: seq<Event>, line: nat)
    requires Simulates(p, a, op) && line > 0 && Feasible(p, es, line)
    ensures var p', moved := After(p, es, line), Answered(p, a, es, line);
            && moved <= op.left
            && (a in p'.live <==> op.left - moved != {})
            && (a in p'.live ==> Simulates(p', a, op.(left := op.left - moved)))
            && (a !in p'.live ==>
                  a in p'.started && p'.completions[a] == if p'.started[a].hasEvent then 1 else 0)
    decreases |es|
  {
    hide Inv; hide Apply; hide Under; hide Span;
    LiveHasLeft(p, a, op);
    if es == [] {
      assert op.left - {} == op.left && op.(left := op.left) == op;
    } else {
      StepKeepsInv(p, es[0], line);
      var p1 := Apply(p, es[0], line);
      if es[0].Response? && p.flight[es[0].index].action == a {
        var q := p.flight[es[0].index];
        ResponseMoves(p, a, op, es[0].index, line);
        var op1 := op.(left := op.left - Span(q));
        if a in p1.live {
          PortRefinesOracle(p1, a, op1, es[1..], line);
          var rest := Answered(p1, a, es[1..], line);
          assert op.left - (Span(q) + rest) == op1.left - rest;
          assert op.(left := op.left - (Span(q) + rest)) == op1.(left := op1.left - rest);
        } else {
          StartedStays(p, es[0], a, line);
          OverAnswersNothing(p1, a, es[1..], line);
          Completion(After(p1, es[1..], line), a);
        }
      } else {
        OthersLeaveAction(p, a, op, es[0], line);
        PortRefinesOracle(p1, a, op, es[1..], line);
        assert {} + Answered(p1, a, es[1..], line) == Answered(p1, a, es[1..], line);
      }
    }
  }

  lemma LiveHasLeft(p: Port, a: nat, op: DmaEngine.Op)
    requires Simulates(p, a, op)
    ensures a in p.live && op.left != {}
  {
    AnyLeft(p, a, op.addr, op.size);
  }

  lemma StartedStays(p: Port, e: Event, a: nat, line: nat)
    requires Inv(p) && line > 0 && Enabled(p, e) && a in p.live
    ensures a in Apply(p, e, line).started
  {
    Completion(p, a);
    if e.Response? { ResponseIs(p, e.index, line); }
    hide Inv;
  }
}
