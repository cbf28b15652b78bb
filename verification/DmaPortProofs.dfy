// What every step keeps.
module DmaPortProofs {
  import opened Chunks
  import opened DmaPortSpec

  function Bytes(s: seq<Packet>, a: nat): nat {
    if s == [] then 0
    else Bytes(s[..|s| - 1], a) +
         if s[|s| - 1].action == a then s[|s| - 1].chunk.size else 0
  }

  lemma {:induction false} BytesConcat(s: seq<Packet>, t: seq<Packet>, a: nat)
    ensures Bytes(s + t, a) == Bytes(s, a) + Bytes(t, a)
    decreases |t|
  {
    if t == [] {
      assert s + t == s;
    } else {
      BytesConcat(s, t[..|t| - 1], a);
      assert (s + t)[..|s + t| - 1] == s + t[..|t| - 1];
    }
  }

  lemma BytesRemove(s: seq<Packet>, i: nat, a: nat)
    requires i < |s|
    ensures Bytes(s, a) == Bytes(Remove(s, i), a) + if s[i].action == a then s[i].chunk.size else 0
  {
    assert s == s[..i] + [s[i]] + s[i + 1..];
    BytesConcat(s[..i] + [s[i]], s[i + 1..], a);
    BytesConcat(s[..i], [s[i]], a);
    BytesConcat(s[..i], s[i + 1..], a);
    assert [s[i]][..0] == [];
  }

  lemma {:induction false} BytesOfAction(a: nat, cs: seq<Chunk>, addr: nat, size: nat, offset: nat, b: nat)
    requires Tiles(cs, addr, size, offset)
    ensures Bytes(PacketsOf(a, cs), b) == if a == b then size else 0
    decreases |cs|
  {
    if cs != [] {
      var n := cs[0].size;
      BytesOfAction(a, cs[1..], addr + n, size - n, offset + n, b);
      var head := Packet(a, cs[0]);
      assert PacketsOf(a, cs) == [head] + PacketsOf(a, cs[1..]);
      BytesConcat([head], PacketsOf(a, cs[1..]), b);
      assert [head][..0] == [];
    }
  }

  // A live action has bytes to come; a finished one has signalled once, if
  // it had anything to signal.
  ghost predicate Balanced(p: Port, a: nat) {
    BalancedAt(p.live, p.started, p.completions, Bytes(p.queue, a) + Bytes(p.flight, a), a)
  }

  ghost predicate BalancedAt(live: map<nat, ReqState>, started: map<nat, ReqState>, completions: multiset<nat>,
                             bytes: nat, a: nat)
  {
    if a in live then
      && a in started && live[a].totBytes == started[a].totBytes
      && live[a].hasEvent == started[a].hasEvent
      && live[a].numBytes < live[a].totBytes
      && live[a].numBytes + bytes == live[a].totBytes
      && completions[a] == 0
    else
      && bytes == 0
      && completions[a] == if a in started && started[a].hasEvent then 1 else 0
  }

  lemma CreditBalances(p: Port, q: Packet, bytes: nat, a: nat)
    requires CanHandle(p, q) && q.chunk.size > 0
    requires BalancedAt(p.live, p.started, p.completions, bytes, a)
    ensures var p', taken := HandleResp(p, q), if q.action == a then q.chunk.size else 0;
            bytes >= taken && BalancedAt(p'.live, p.started, p'.completions, bytes - taken, a)
  {}

  ghost predicate Positive(s: seq<Packet>) {
    forall i :: 0 <= i < |s| ==> s[i].chunk.size > 0
  }

  ghost predicate Accounted(p: Port) {
    && p.pendingCount == |p.queue| + |p.flight|
    && (p.drainWanted ==> p.pendingCount > 0)
    && Positive(p.queue) && Positive(p.flight)
    && (forall a :: Balanced(p, a))
  }

  // A send is armed, in one way only, exactly when there is something to send.
  ghost predicate Inv(p: Port) {
    && Accounted(p)
    && (p.queue == [] <==> !p.inRetry && !p.sendScheduled)
    && !(p.inRetry && p.sendScheduled)
  }

  lemma InitialInv()
    ensures Inv(IDLE_PORT)
  {
    forall a ensures Balanced(IDLE_PORT, a) { assert a !in IDLE_PORT.completions; }
  }

  lemma {:induction false} BytesAtLeast(s: seq<Packet>, i: nat)
    requires i < |s|
    ensures Bytes(s, s[i].action) >= s[i].chunk.size
  {
    if i < |s| - 1 { BytesAtLeast(s[..|s| - 1], i); }
  }

  lemma QueueKeepsInv(p: Port, a: nat, addr: nat, size: nat, hasEvent: bool, line: nat)
    requires Inv(p) && line > 0 && size > 0 && a !in p.started
    ensures var p' := QueueAction(p, a, addr, size, hasEvent, line);
            Accounted(p') && p'.queue != []
  {
    var cs := Split(addr, size, line, 0);
    var ps := PacketsOf(a, cs);
    var p' := QueueAction(p, a, addr, size, hasEvent, line);
    SplitTiles(addr, size, line, 0);
    TilesStayInside(cs, addr, size, 0);
    forall b
      ensures Balanced(p', b)
    {
      assert Balanced(p, b);
      BytesConcat(p.queue, ps, b);
      BytesOfAction(a, cs, addr, size, 0, b);
    }
  }

  lemma TrySendKeepsInv(p: Port, taken: bool)
    requires Accounted(p) && p.queue != [] && !p.sendScheduled
    ensures Inv(TrySendTimingReq(p, taken))
  {
    var p' := TrySendTimingReq(p, taken);
    forall a
      ensures Balanced(p', a)
    {
      assert Balanced(p, a);
      if taken {
        assert p.queue == [p.queue[0]] + p.queue[1..];
        BytesConcat([p.queue[0]], p.queue[1..], a);
        BytesConcat(p.flight, [p.queue[0]], a);
      }
    }
  }

  lemma ResponseIsExpected(p: Port, i: nat)
    requires Inv(p) && i < |p.flight|
    ensures CanHandle(p, p.flight[i])
  {
    assert Balanced(p, p.flight[i].action);
    BytesAtLeast(p.flight, i);
  }

  lemma ResponseKeepsInv(p: Port, i: nat)
    requires Inv(p) && i < |p.flight|
    ensures CanHandle(p, p.flight[i])
    ensures var p' := HandleResp(p, p.flight[i]).(flight := Remove(p.flight, i));
            && Inv(p')
            && (p'.drainSignals != p.drainSignals ==> p'.pendingCount == 0)
            && (p'.completions != p.completions ==> p.flight[i].action !in p'.live)
  {
    ResponseIsExpected(p, i);
    var q := p.flight[i];
    var p' := HandleResp(p, q).(flight := Remove(p.flight, i));
    forall a
      ensures Balanced(p', a)
    {
      assert Balanced(p, a);
      BytesRemove(p.flight, i, a);
      CreditBalances(p, q, Bytes(p.queue, a) + Bytes(p.flight, a), a);
    }
  }

  function Apply(p: Port, e: Event, line: nat): Port
    requires Inv(p) && Enabled(p, e) && line > 0
  {
    match e
    case Act(a, addr, size, hasEvent, taken) =>
      QueueKeepsInv(p, a, addr, size, hasEvent, line);
      SendDma(QueueAction(p, a, addr, size, hasEvent, line), taken)
    case Fire(taken) => SendDma(p.(sendScheduled := false), taken)
    case Retry(taken) => TrySendTimingReq(p, taken)
    case Response(i) =>
      ResponseIsExpected(p, i);
      HandleResp(p, p.flight[i]).(flight := Remove(p.flight, i))
    case Drain => if p.pendingCount == 0 then p else p.(drainWanted := true)
  }

  lemma StepKeepsInv(p: Port, e: Event, line: nat)
    requires Inv(p) && Enabled(p, e) && line > 0
    ensures Inv(Apply(p, e, line))
    ensures Apply(p, e, line).drainSignals != p.drainSignals ==> Apply(p, e, line).pendingCount == 0
  {
    match e
    case Act(a, addr, size, hasEvent, taken) =>
      QueueKeepsInv(p, a, addr, size, hasEvent, line);
      var p' := QueueAction(p, a, addr, size, hasEvent, line);
      if !(p'.inRetry || p'.sendScheduled) { TrySendKeepsInv(p', taken); }
    case Fire(taken) =>
      var p' := p.(sendScheduled := false);
      forall a ensures Balanced(p', a) { assert Balanced(p, a); }
      TrySendKeepsInv(p', taken);
    case Retry(taken) => TrySendKeepsInv(p, taken);
    case Response(i) => ResponseKeepsInv(p, i);
    case Drain =>
      var p' := Apply(p, e, line);
      forall a ensures Balanced(p', a) { assert Balanced(p, a); }
  }

  ghost predicate Feasible(p: Port, es: seq<Event>, line: nat)
    requires Inv(p) && line > 0
    decreases |es|
  {
    es == [] ||
    (Enabled(p, es[0]) &&
     (StepKeepsInv(p, es[0], line); Feasible(Apply(p, es[0], line), es[1..], line)))
  }

  ghost function After(p: Port, es: seq<Event>, line: nat): Port
    requires Inv(p) && line > 0 && Feasible(p, es, line)
    decreases |es|
  {
    if es == [] then p
    else
      StepKeepsInv(p, es[0], line);
      After(Apply(p, es[0], line), es[1..], line)
  }

  lemma {:induction false} RunKeepsInv(p: Port, es: seq<Event>, line: nat)
    requires Inv(p) && line > 0 && Feasible(p, es, line)
    ensures Inv(After(p, es, line))
    decreases |es|
  {
    if es != [] {
      StepKeepsInv(p, es[0], line);
      RunKeepsInv(Apply(p, es[0], line), es[1..], line);
    }
  }

  ghost function Start(): (p: Port)
    ensures Inv(p)
  {
    InitialInv();
    IDLE_PORT
  }

  // Over every run: whatever overlaps, whatever is refused and in whatever
  // order responses come, each action's bytes are accounted for, its
  // completion is signalled exactly once, when its last byte is in, and the
  // port has a send armed exactly when it has something to send.
  lemma EveryActionCompletesOnce(es: seq<Event>, line: nat, a: nat)
    requires line > 0 && Feasible(Start(), es, line)
    ensures var p := After(Start(), es, line);
            && p.pendingCount == |p.queue| + |p.flight|
            && (p.queue != [] <==> p.inRetry || p.sendScheduled) && !(p.inRetry && p.sendScheduled)
            && (a in p.live ==>
                  a in p.started && p.completions[a] == 0
                  && p.live[a].numBytes + Bytes(p.queue, a) + Bytes(p.flight, a) == p.started[a].totBytes
                  && 0 < Bytes(p.queue, a) + Bytes(p.flight, a))
            && (a in p.started && a !in p.live ==>
                  Bytes(p.queue, a) + Bytes(p.flight, a) == 0
                  && p.completions[a] == if p.started[a].hasEvent then 1 else 0)
            && (a !in p.started ==> p.completions[a] == 0)
            && (p.drainWanted ==> p.pendingCount > 0)
  {
    RunKeepsInv(Start(), es, line);
    assert Balanced(After(Start(), es, line), a);
  }

  // Once nothing is pending, everything started has been answered and signalled.
  lemma IdleMeansAllDone(p: Port, a: nat)
    requires Inv(p) && p.pendingCount == 0
    ensures p.live == map[]
    ensures a in p.started ==> p.completions[a] == if p.started[a].hasEvent then 1 else 0
  {
    forall b
      ensures b !in p.live
    {
      assert Balanced(p, b);
    }
    assert Balanced(p, a);
  }

  // ---- Atomic mode ----

  function FlushOne(p: Port): Port
    requires p.queue != [] && CanHandle(p, p.queue[0])
  {
    HandleResp(p.(queue := p.queue[1..]), p.queue[0])
  }

  lemma FlushBalances(p: Port, a: nat)
    requires p.queue != [] && CanHandle(p, p.queue[0]) && p.queue[0].chunk.size > 0 && Balanced(p, a)
    ensures Balanced(FlushOne(p), a)
  {
    hide Bytes; hide BalancedAt; hide CreditResp; hide HandleResp;
    BytesRemove(p.queue, 0, a);
    assert Remove(p.queue, 0) == p.queue[1..];
    CreditBalances(p.(queue := p.queue[1..]), p.queue[0], Bytes(p.queue, a) + Bytes(p.flight, a), a);
    CreditKeepsLists(p.(queue := p.queue[1..]), p.queue[0]);
  }

  lemma CreditKeepsLists(p: Port, q: Packet)
    requires CanHandle(p, q)
    ensures var p' := HandleResp(p, q); p'.queue == p.queue && p'.flight == p.flight && p'.started == p.started
  {}

  lemma FlushStep(p: Port)
    requires Accounted(p) && p.queue != []
    ensures CanHandle(p, p.queue[0])
    ensures Accounted(FlushOne(p))
    ensures FlushOne(p).queue == p.queue[1..]
  {
    assert Balanced(p, p.queue[0].action);
    BytesAtLeast(p.queue, 0);
    hide Bytes; hide Balanced;
    forall a
      ensures Balanced(FlushOne(p), a)
    {
      FlushBalances(p, a);
    }
  }

  // Everything there is to send is sent and answered in zero time.
  function Flush(p: Port): Port
    requires Accounted(p)
    decreases |p.queue|
  {
    if p.queue == [] then p
    else
      FlushStep(p);
      Flush(FlushOne(p))
  }

  lemma {:induction false} FlushKeeps(p: Port)
    requires Accounted(p)
    ensures var p' := Flush(p);
            && Accounted(p') && p'.queue == [] && p'.flight == p.flight && p'.started == p.started
            && p'.inRetry == p.inRetry && p'.sendScheduled == p.sendScheduled
    decreases |p.queue|
  {
    if p.queue != [] {
      FlushStep(p);
      FlushKeeps(FlushOne(p));
    }
  }

  lemma FlushUnfolds(p: Port)
    requires Accounted(p)
    ensures p.queue == [] ==> Flush(p) == p
    ensures p.queue != [] ==>
      CanHandle(p, p.queue[0]) && Accounted(FlushOne(p)) && Flush(p) == Flush(FlushOne(p))
  {
    if p.queue != [] {
      FlushStep(p);
    }
  }

  // In atomic mode an action is over when dmaAction returns.
  lemma AtomicActionIsComplete(p: Port, a: nat, addr: nat, size: nat, hasEvent: bool, line: nat)
    requires Inv(p) && p.queue == [] && line > 0 && size > 0 && a !in p.started
    ensures Accounted(QueueAction(p, a, addr, size, hasEvent, line))
    ensures var p' := Flush(QueueAction(p, a, addr, size, hasEvent, line));
            && Inv(p') && p'.queue == [] && p'.pendingCount == p.pendingCount
            && a !in p'.live && p'.completions[a] == if hasEvent then 1 else 0
  {
    QueueKeepsInv(p, a, addr, size, hasEvent, line);
    var q := QueueAction(p, a, addr, size, hasEvent, line);
    FlushKeeps(q);
    assert Balanced(p, a);
    assert Balanced(Flush(q), a);
  }
}
