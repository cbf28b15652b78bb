// What guests see, over every run.
module BarRuns {
  import opened BarSpec
  import opened BarProofs

  // Which address a register has been given by a guest: settings[(i, g)].
  datatype State = State(hub: Hub, settings: map<(nat, nat), nat>)

  function BaseOf(v: nat): nat { v - v % 2 }

  // The address that startup has set aside for a register.
  function UniqAddr(s: Shadow): nat { Space(IsIo(s.uniq), BaseOf(s.uniq)) }

  // A register that nobody has programmed answers to nothing.
  predicate Answers(b: Bar) { b.addr != 0 }

  // A register and its shadow belong together.
  predicate Paired(b: Bar, s: Shadow) {
    && Good(b) && s.uniq % 2 == b.reg % 2 && s.size == b.size
    && Flags(IsIo(s.uniq), BaseOf(s.uniq)) == 0
    && 0 < BaseOf(s.uniq) && BaseOf(s.uniq) + s.size < WRAP
    && (Answers(b) ==> b.addr == UniqAddr(s))
  }

  // An address a guest may choose: of the right kind, with no other flag,
  // not above the address the register really has.
  predicate Choosable(s: Shadow, v: nat) {
    && !PassesThrough(v) && s.size > 0
    && v % 2 == s.uniq % 2 && Flags(IsIo(s.uniq), v) == v % 2 && v <= s.uniq
  }

  ghost predicate IsSet(h: Hub, i: nat, g: nat, v: nat) {
    i < |h.shadows| && Choosable(h.shadows[i], v) && RangeFor(h.shadows[i], v) in RangesOf(h, g)
  }

  // A range of guest g made for register i: where the guest has put it or, if
  // a write was refused and offered again, where it really is.
  ghost predicate IsRangeOf(st: State, g: nat, r: Range, i: nat) {
    && (i, g) in st.settings && i < |st.hub.shadows|
    && (r == RangeFor(st.hub.shadows[i], st.settings[(i, g)])
        || r == RangeFor(st.hub.shadows[i], st.hub.shadows[i].uniq))
  }

  ghost predicate RangesAreSettings(st: State) {
    forall g, r :: r in RangesOf(st.hub, g) ==> exists i :: IsRangeOf(st, g, r, i)
  }

  ghost predicate Apart(h: Hub) {
    forall g, r, q :: r in RangesOf(h, g) && q in RangesOf(h, g) && Overlap(r, q) ==> r == q
  }

  ghost predicate AllPaired(h: Hub) {
    |h.bars| == |h.shadows| && forall i :: 0 <= i < |h.bars| ==> Paired(h.bars[i], h.shadows[i])
  }

  ghost predicate UniqsApart(h: Hub) {
    forall i, j :: 0 <= i < |h.shadows| && 0 <= j < |h.shadows| && i != j ==>
      || UniqAddr(h.shadows[i]) + h.shadows[i].size <= UniqAddr(h.shadows[j])
      || UniqAddr(h.shadows[j]) + h.shadows[j].size <= UniqAddr(h.shadows[i])
  }

  ghost predicate Inv(st: State) {
    && AllPaired(st.hub) && UniqsApart(st.hub)
    && (forall x :: x in st.settings ==> IsSet(st.hub, x.0, x.1, st.settings[x]))
    && RangesAreSettings(st) && Apart(st.hub)
  }

  datatype Event =
    | Probe(i: nat) | Clear(i: nat, kind: nat)
    | Program(i: nat, guest: nat, value: nat)
    | Refuse(i: nat, guest: nat, value: nat)

  ghost predicate ClearOf(rs: seq<Range>, r: Range) {
    forall q :: q in rs && Overlap(q, r) ==> q == r
  }

  // A register keeps the first address that a guest gives it, and its range
  // stays clear of the others of the guest.  A write that is offered again
  // after a refusal holds the device's own address.
  ghost predicate MayWrite(st: State, i: nat, g: nat, v: nat)
    requires i < |st.hub.shadows|
  {
    && Choosable(st.hub.shadows[i], v)
    && if (i, g) in st.settings then v == st.settings[(i, g)] || v == st.hub.shadows[i].uniq
       else ClearOf(RangesOf(st.hub, g), RangeFor(st.hub.shadows[i], v))
  }

  ghost predicate Proper(st: State, e: Event) {
    && e.i < |st.hub.bars| == |st.hub.shadows|
    && match e
       case Probe(_) => true
       case Clear(_, kind) => kind < 2
       case Program(i, g, v) => MayWrite(st, i, g, v)
       case Refuse(i, g, v) => MayWrite(st, i, g, v)
  }

  function Chosen(st: State, i: nat, g: nat, v: nat): map<(nat, nat), nat> {
    if (i, g) in st.settings then st.settings else st.settings[(i, g) := v]
  }

  function Apply(st: State, e: Event): State
    requires e.i < |st.hub.bars| == |st.hub.shadows|
  {
    match e
    case Probe(i) => st.(hub := GuestWrite(st.hub, 0, i, ONES))
    case Clear(i, kind) => st.(hub := GuestWrite(st.hub, 0, i, kind))
    case Program(i, g, v) => State(GuestWrite(st.hub, g, i, v), Chosen(st, i, g, v))
    case Refuse(i, g, v) => State(HookWrite(st.hub, g, i, v).hub, Chosen(st, i, g, v))
  }

  // ---- The device under writes ----

  lemma UniqWritten(b: Bar, s: Shadow)
    requires Paired(b, s)
    ensures WriteBar(b, s.uniq) == b.(reg := s.uniq, addr := UniqAddr(s))
    ensures Paired(WriteBar(b, s.uniq), s)
  {
    var base, t := BaseOf(s.uniq), s.uniq % 2;
    FlagsAdd(IsIo(b.reg), base, t);
    NotOnes(IsIo(b.reg), base);
    GoodGives(b);
    hide Flags;
  }

  lemma ProbeWritten(b: Bar, s: Shadow)
    requires Paired(b, s)
    ensures WriteBar(b, ONES) == b.(reg := Negate(s.size) + s.uniq % 2) && WriteBar(b, ONES).reg != s.uniq
    ensures Paired(WriteBar(b, ONES), s)
  {
    ProbeIs(b);
    GoodGives(b);
    hide Flags; hide SizeFrom; hide WriteBar;
  }

  lemma ClearWritten(b: Bar, s: Shadow, kind: nat)
    requires Paired(b, s) && kind < 2
    ensures WriteBar(b, kind) == b.(reg := s.uniq % 2) && Paired(WriteBar(b, kind), s)
  {
    GoodGives(b);
    FlagsAdd(IsIo(b.reg), 0, kind);
    FlagsAdd(IsIo(b.reg), 0, s.uniq % 2);
    hide Flags;
  }

  // ---- What every write keeps ----

  lemma BarsDoNotMatter(st: State, st': State)
    requires st'.settings == st.settings && st'.hub == st.hub.(bars := st'.hub.bars)
    ensures RangesAreSettings(st) ==> RangesAreSettings(st')
    ensures Apart(st.hub) ==> Apart(st'.hub)
    ensures UniqsApart(st.hub) ==> UniqsApart(st'.hub)
    ensures forall x :: x in st.settings && IsSet(st.hub, x.0, x.1, st.settings[x]) ==>
              IsSet(st'.hub, x.0, x.1, st.settings[x])
  {
    hide Choosable; hide RangeFor; hide Overlap; hide UniqAddr;
    assert forall g :: RangesOf(st'.hub, g) == RangesOf(st.hub, g);
    hide RangesOf;
    assert forall g, r, j :: IsRangeOf(st', g, r, j) <==> IsRangeOf(st, g, r, j);
  }

  // A write to the device alone.
  lemma DeviceKeepsInv(st: State, i: nat, v: nat)
    requires Inv(st) && i < |st.hub.bars|
    requires Paired(WriteBar(st.hub.bars[i], v), st.hub.shadows[i])
    ensures Inv(st.(hub := st.hub.(bars := st.hub.bars[i := WriteBar(st.hub.bars[i], v)])))
  {
    hide WriteBar; hide Paired; hide Choosable; hide RangeFor; hide Overlap; hide UniqAddr;
    var st' := st.(hub := st.hub.(bars := st.hub.bars[i := WriteBar(st.hub.bars[i], v)]));
    BarsDoNotMatter(st, st');
    hide IsSet; hide RangesAreSettings; hide Apart; hide UniqsApart;
  }

  // What the hook does to the ranges of guest g.
  lemma HookRanges(st: State, i: nat, g: nat, v: nat)
    requires Inv(st) && i < |st.hub.shadows| && MayWrite(st, i, g, v)
    ensures var h', q := HookWrite(st.hub, g, i, v).hub, RangeFor(st.hub.shadows[i], v);
            && (forall g' :: g' != g ==> RangesOf(h', g') == RangesOf(st.hub, g'))
            && RangesOf(h', g) == Insert(RangesOf(st.hub, g), q)
  {
    hide Inv; hide RangeFor; hide Flags; hide ClearOf; hide Insert;
  }

  lemma InsertGives(rs: seq<Range>, q: Range)
    ensures forall r :: r in rs ==> r in Insert(rs, q)
    ensures forall r :: r in Insert(rs, q) ==> r in rs || r == q
    ensures ClearOf(rs, q) && q.size > 0 ==> q in Insert(rs, q)
  {
    if k :| 0 <= k < |rs| && Overlap(rs[k], q) { assert rs[k] in rs; }
  }

  lemma InsertKeepsApart(rs: seq<Range>, q: Range, r: Range, p: Range)
    requires forall r, p :: r in rs && p in rs && Overlap(r, p) ==> r == p
    requires r in Insert(rs, q) && p in Insert(rs, q) && Overlap(r, p)
    ensures r == p
  {
    OverlapIsMutual(r, p);
  }

  lemma OverlapIsMutual(r: Range, p: Range)
    ensures Overlap(r, p) <==> Overlap(p, r)
  {}

  lemma HookShadows(st: State, i: nat, g: nat, v: nat)
    requires i < |st.hub.shadows| && MayWrite(st, i, g, v)
    ensures var h' := HookWrite(st.hub, g, i, v).hub;
            && h'.bars == st.hub.bars && |h'.shadows| == |st.hub.shadows|
            && h'.shadows == st.hub.shadows[i := st.hub.shadows[i].(user := v)]
            && (forall b, k :: 0 <= k < |h'.shadows| ==> (Paired(b, h'.shadows[k]) <==> Paired(b, st.hub.shadows[k])))
            && (forall x, k :: 0 <= k < |h'.shadows| ==> RangeFor(h'.shadows[k], x) == RangeFor(st.hub.shadows[k], x))
            && (forall x, k :: 0 <= k < |h'.shadows| ==>
                  (Choosable(h'.shadows[k], x) <==> Choosable(st.hub.shadows[k], x)))
            && (forall k :: 0 <= k < |h'.shadows| ==> h'.shadows[k].uniq == st.hub.shadows[k].uniq)
            && (UniqsApart(st.hub) ==> UniqsApart(h'))
  {
    hide Insert; hide ClearOf;
  }

  lemma HookKeepsSettings(st: State, i: nat, g: nat, v: nat)
    requires Inv(st) && i < |st.hub.shadows| && MayWrite(st, i, g, v)
    ensures var st' := State(HookWrite(st.hub, g, i, v).hub, Chosen(st, i, g, v));
            forall x :: x in st'.settings ==> IsSet(st'.hub, x.0, x.1, st'.settings[x])
  {
    hide Insert; hide Overlap; hide Paired; hide HookWrite; hide Choosable; hide RangeFor; hide ClearOf; hide RangesOf;
    hide RangesAreSettings; hide Apart; hide AllPaired; hide UniqsApart;
    var st' := State(HookWrite(st.hub, g, i, v).hub, Chosen(st, i, g, v));
    HookShadows(st, i, g, v);
    HookRanges(st, i, g, v);
    var q := RangeFor(st.hub.shadows[i], v);
    InsertGives(RangesOf(st.hub, g), q);
    assert q.size > 0 by { ChoosableHasSize(st.hub.shadows[i], v); }
    forall x | x in st'.settings
      ensures IsSet(st'.hub, x.0, x.1, st'.settings[x])
    {
      if x in st.settings { assert IsSet(st.hub, x.0, x.1, st.settings[x]); }
    }
  }

  lemma ChoosableHasSize(s: Shadow, v: nat)
    requires Choosable(s, v)
    ensures RangeFor(s, v).size > 0
  {}

  lemma HookKeepsRanges(st: State, i: nat, g: nat, v: nat)
    requires Inv(st) && i < |st.hub.shadows| && MayWrite(st, i, g, v)
    ensures var st' := State(HookWrite(st.hub, g, i, v).hub, Chosen(st, i, g, v));
            RangesAreSettings(st') && Apart(st'.hub)
  {
    hide Insert; hide Overlap; hide Paired; hide HookWrite; hide Choosable; hide RangeFor; hide ClearOf; hide RangesOf;
    hide AllPaired; hide UniqsApart; hide IsSet;
    var st' := State(HookWrite(st.hub, g, i, v).hub, Chosen(st, i, g, v));
    HookShadows(st, i, g, v);
    HookRanges(st, i, g, v);
    var rs, q := RangesOf(st.hub, g), RangeFor(st.hub.shadows[i], v);
    InsertGives(rs, q);
    forall g', r | r in RangesOf(st'.hub, g')
      ensures exists j :: IsRangeOf(st', g', r, j)
    {
      if r in RangesOf(st.hub, g') {
        var j :| IsRangeOf(st, g', r, j);
        assert IsRangeOf(st', g', r, j);
      } else {
        assert IsRangeOf(st', g', r, i);
      }
    }
    forall g', r, p | r in RangesOf(st'.hub, g') && p in RangesOf(st'.hub, g') && Overlap(r, p)
      ensures r == p
    {
      if g' == g { InsertKeepsApart(rs, q, r, p); }
    }
  }

  lemma HookKeepsInv(st: State, i: nat, g: nat, v: nat)
    requires Inv(st) && i < |st.hub.shadows| && MayWrite(st, i, g, v)
    ensures Inv(State(HookWrite(st.hub, g, i, v).hub, Chosen(st, i, g, v)))
  {
    hide HookWrite; hide Paired; hide RangesAreSettings; hide Apart; hide UniqsApart; hide IsSet; hide Chosen;
    hide Choosable; hide RangeFor; hide ClearOf; hide MayWrite;
    HookShadows(st, i, g, v);
    HookKeepsSettings(st, i, g, v);
    HookKeepsRanges(st, i, g, v);
  }

  lemma ProgramKeepsInv(st: State, i: nat, g: nat, v: nat)
    requires Inv(st) && Proper(st, Program(i, g, v))
    ensures Inv(Apply(st, Program(i, g, v)))
  {
    hide Inv; hide RangeFor; hide ClearOf; hide Insert; hide Paired; hide WriteBar; hide Chosen;
    var st' := State(HookWrite(st.hub, g, i, v).hub, Chosen(st, i, g, v));
    HookKeepsInv(st, i, g, v);
    InvGives(st', i);
    UniqWritten(st'.hub.bars[i], st'.hub.shadows[i]);
    DeviceKeepsInv(st', i, st'.hub.shadows[i].uniq);
  }

  lemma StepKeepsInv(st: State, e: Event)
    requires Inv(st) && Proper(st, e)
    ensures Inv(Apply(st, e))
  {
    hide Inv; hide Choosable; hide IsRangeOf; hide WriteBar; hide Paired;
    match e
    case Probe(i) =>
      InvGives(st, i);
      ProbeWritten(st.hub.bars[i], st.hub.shadows[i]);
      DeviceKeepsInv(st, i, ONES);
    case Clear(i, kind) =>
      InvGives(st, i);
      ClearWritten(st.hub.bars[i], st.hub.shadows[i], kind);
      DeviceKeepsInv(st, i, kind);
    case Program(i, g, v) => ProgramKeepsInv(st, i, g, v);
    case Refuse(i, g, v) => HookKeepsInv(st, i, g, v);
  }

  lemma InvGives(st: State, i: nat)
    requires Inv(st) && i < |st.hub.bars|
    ensures |st.hub.bars| == |st.hub.shadows| && Paired(st.hub.bars[i], st.hub.shadows[i])
  {}

  // ---- Runs ----

  ghost predicate IsRun(trace: seq<State>, bars: seq<Bar>) {
    && trace != []
    && AllGood(bars) && Fits(bars)
    && trace[0] == State(Hub(AllocAll(bars, |bars|).bars, AllocAll(bars, |bars|).shadows, map[]), map[])
    && forall k :: 0 <= k < |trace| - 1 ==> Next(trace[k], trace[k + 1])
  }

  ghost predicate Next(st: State, st': State) { exists e :: Proper(st, e) && st' == Apply(st, e) }

  lemma StartupPairs(bars: seq<Bar>)
    requires AllGood(bars) && Fits(bars)
    ensures Inv(State(Hub(AllocAll(bars, |bars|).bars, AllocAll(bars, |bars|).shadows, map[]), map[]))
  {
    hide AllocAll; hide UniqAddr; hide Paired; hide UniqsApart;
    AllocIs(bars, |bars|);
    var a := AllocAll(bars, |bars|);
    forall i | 0 <= i < |bars|
      ensures Paired(a.bars[i], a.shadows[i])
    {
      StartupPair(bars, a, i);
    }
    StartupUniqs(bars, Hub(a.bars, a.shadows, map[]));
  }

  lemma StartupUniqs(bars: seq<Bar>, h: Hub)
    requires AllGood(bars) && Fits(bars)
    requires h.bars == AllocAll(bars, |bars|).bars && h.shadows == AllocAll(bars, |bars|).shadows
    ensures UniqsApart(h)
  {
    hide AllocAll; hide UniqAddr; hide AllGood; hide Fits;
    forall i, j | 0 <= i < |h.shadows| && 0 <= j < |h.shadows| && i != j
      ensures || UniqAddr(h.shadows[i]) + h.shadows[i].size <= UniqAddr(h.shadows[j])
              || UniqAddr(h.shadows[j]) + h.shadows[j].size <= UniqAddr(h.shadows[i])
    {
      AllocIs(bars, |bars|);
      if i < j { StartupApart(bars, i, j); } else { StartupApart(bars, j, i); }
    }
  }

  lemma StartupApart(bars: seq<Bar>, i: nat, j: nat)
    requires AllGood(bars) && Fits(bars) && i < j < |bars|
    ensures var a := AllocAll(bars, |bars|);
            && |a.bars| == |a.shadows| == |bars|
            && (|| UniqAddr(a.shadows[i]) + a.shadows[i].size <= UniqAddr(a.shadows[j])
                || UniqAddr(a.shadows[j]) + a.shadows[j].size <= UniqAddr(a.shadows[i]))
  {
    hide AllocAll; hide Survives; hide AllGood; hide Fits; hide Paired; hide UniqAddr;
    StartupIsSound(bars, i, j);
    AllocIs(bars, |bars|);
    var a := AllocAll(bars, |bars|);
    StartupPair(bars, a, i);
    StartupPair(bars, a, j);
    UniqsAreApart(bars, i, j);
    KindsAreApart(a.bars[i], a.shadows[i], a.bars[j], a.shadows[j]);
  }

  lemma StartupPair(bars: seq<Bar>, a: Alloc, i: nat)
    requires AllGood(bars) && Fits(bars) && i < |bars| == |a.bars| == |a.shadows| && ShadowFits(bars, a, i)
    ensures Paired(a.bars[i], a.shadows[i])
  {
    var io, t := IsIo(bars[i].reg), bars[i].reg % 2;
    assert Good(bars[i]) && bars[i].addr == 0;
    GoodGives(bars[i]);
    ReachIsAligned(bars, i, io);
    ReachGrows(bars, 0, i, io);
    ReachGrows(bars, i + 1, |bars|, io);
    hide Flags;
    FlagsAdd(io, Reach(bars, i, io), t);
    assert Flags(io, 0) == 0 by { ZeroHasNoFlags(io); }
    FlagsAdd(io, 0, t);
  }

  lemma ZeroHasNoFlags(io: bool)
    ensures Flags(io, 0) == 0
  {}

  lemma {:induction false} RunKeepsInv(trace: seq<State>, bars: seq<Bar>)
    requires IsRun(trace, bars)
    ensures Inv(trace[|trace| - 1])
    decreases |trace|
  {
    hide Inv; hide AllocAll; hide Apply; hide Proper; hide Next; hide Fits; hide AllGood;
    StartupPairs(bars);
    if |trace| > 1 {
      var before, k := trace[..|trace| - 1], |trace| - 2;
      assert forall j :: 0 <= j < |before| - 1 ==> Next(before[j], before[j + 1]);
      RunKeepsInv(before, bars);
      var e := NextBy(trace[k], trace[k + 1]);
      StepKeepsInv(trace[k], e);
    }
  }

  lemma NextBy(st: State, st': State) returns (e: Event)
    requires Next(st, st')
    ensures Proper(st, e) && st' == Apply(st, e)
  {
    e :| Proper(st, e) && st' == Apply(st, e);
  }

  // ---- What guests see ----

  // Byte k of a range made for a register is byte k of what was set aside for
  // the register.
  lemma RangeLeads(st: State, i: nat, g: nat, r: Range, k: nat)
    requires Inv(st) && r in RangesOf(st.hub, g) && IsRangeOf(st, g, r, i) && k < r.size
    ensures i < |st.hub.bars| == |st.hub.shadows| && r.size == st.hub.shadows[i].size
    ensures Remap(st.hub, g, r.start + k) == UniqAddr(st.hub.shadows[i]) + k
  {
    hide Find; hide Paired; hide Flags; hide RangesOf; hide Space; hide RangesAreSettings; hide UniqsApart;
    assert IsSet(st.hub, i, g, st.settings[(i, g)]);
    var s := st.hub.shadows[i];
    FoundIsOwn(st.hub, g, r, r.start + k);
    InvGives(st, i);
    PairedIsSmall(st.hub.bars[i], s);
    PairedEnds(st.hub.bars[i], s, k);
    var v := if r == RangeFor(s, s.uniq) then s.uniq else st.settings[(i, g)];
    Small(s.uniq - v);
    RemapSum(IsIo(v), v, s.uniq, k);
  }

  // The ranges of a guest do not overlap, so that the first one that holds an
  // address is the only one.
  lemma FoundIsOwn(h: Hub, g: nat, r: Range, a: nat)
    requires Apart(h) && r in RangesOf(h, g) && Contains(r, a)
    ensures var rs := RangesOf(h, g);
            var n := Find(rs, a);
            n < |rs| && rs[n] == r
  {
    hide RangesOf;
    var rs := RangesOf(h, g);
    var n := Find(rs, a);
    assert n < |rs| && rs[n] in rs;
    assert Overlap(r, rs[n]);
  }

  // Byte k of the region a guest has chosen is byte k of the device's own.
  lemma RemapReachesDevice(st: State, i: nat, g: nat, k: nat)
    requires Inv(st) && (i, g) in st.settings && i < |st.hub.shadows| && k < st.hub.shadows[i].size
    ensures var v := st.settings[(i, g)];
            Remap(st.hub, g, Space(IsIo(v), BaseOf(v)) + k) == UniqAddr(st.hub.shadows[i]) + k
  {
    hide Remap; hide Paired; hide RangesOf; hide Space; hide Choosable; hide UniqAddr; hide RangesAreSettings;
    hide Apart; hide UniqsApart;
    assert IsSet(st.hub, i, g, st.settings[(i, g)]);
    RangeLeads(st, i, g, RangeFor(st.hub.shadows[i], st.settings[(i, g)]), k);
  }

  lemma SetGives(st: State, i: nat, g: nat)
    requires Inv(st) && (i, g) in st.settings
    ensures i < |st.hub.bars| == |st.hub.shadows|
    ensures var s, v := st.hub.shadows[i], st.settings[(i, g)];
            v <= s.uniq && v % 2 == s.uniq % 2 && s.size > 0 && RangeFor(s, v) in RangesOf(st.hub, g)
  {
    assert IsSet(st.hub, i, g, st.settings[(i, g)]);
  }

  lemma PairedIsSmall(b: Bar, s: Shadow)
    requires Paired(b, s)
    ensures s.uniq < WRAP
  {
    NotOnes(IsIo(s.uniq), BaseOf(s.uniq));
  }

  lemma RemapSum(io: bool, v: nat, uniq: nat, k: nat)
    requires v <= uniq < WRAP && v % 2 == uniq % 2 && BaseOf(uniq) + k < WRAP
    ensures (Space(io, BaseOf(v)) + k + (uniq - v)) % WRAP64 == Space(io, BaseOf(uniq)) + k
  {
    var x := Space(io, BaseOf(uniq)) + k;
    assert Space(io, BaseOf(v)) + k + (uniq - v) == x;
    assert x < WRAP64;
    Small64(x);
  }

  lemma Small64(x: nat)
    requires x < WRAP64
    ensures x % WRAP64 == x
  {}

  // What startup has recorded stays.
  ghost predicate SameShadows(h: Hub, h': Hub) {
    && |h'.shadows| == |h.shadows| && |h'.bars| == |h.bars|
    && forall i :: 0 <= i < |h.shadows| ==> h'.shadows[i] == h.shadows[i].(user := h'.shadows[i].user)
  }

  lemma StepKeepsShadows(st: State, e: Event)
    requires e.i < |st.hub.bars| == |st.hub.shadows|
    ensures SameShadows(st.hub, Apply(st, e).hub)
    ensures forall x :: x in st.settings && Proper(st, e) ==>
      x in Apply(st, e).settings && Apply(st, e).settings[x] == st.settings[x]
  {
    hide WriteBar; hide Insert; hide RangeFor; hide Choosable; hide IsRangeOf;
  }

  // Ranges are never taken back.
  lemma StepKeepsRanges(st: State, e: Event)
    requires Inv(st) && Proper(st, e)
    ensures forall g, r :: r in RangesOf(st.hub, g) ==> r in RangesOf(Apply(st, e).hub, g)
    ensures forall g, r, i :: IsRangeOf(st, g, r, i) ==> IsRangeOf(Apply(st, e), g, r, i)
  {
    hide Inv; hide WriteBar; hide Choosable; hide ClearOf; hide Insert;
    StepKeepsShadows(st, e);
    if e.Program? || e.Refuse? {
      HookRanges(st, e.i, e.guest, e.value);
      InsertGives(RangesOf(st.hub, e.guest), RangeFor(st.hub.shadows[e.i], e.value));
    }
  }

  lemma {:induction false} RunKeepsShadows(trace: seq<State>, bars: seq<Bar>)
    requires IsRun(trace, bars)
    ensures SameShadows(trace[0].hub, trace[|trace| - 1].hub)
    decreases |trace|
  {
    hide AllocAll; hide Apply; hide Proper; hide Next; hide Fits; hide AllGood;
    if |trace| > 1 {
      var before, k := trace[..|trace| - 1], |trace| - 2;
      assert forall j :: 0 <= j < |before| - 1 ==> Next(before[j], before[j + 1]);
      RunKeepsShadows(before, bars);
      var e := NextBy(trace[k], trace[k + 1]);
      ProperFits(trace[k], e);
      StepKeepsShadows(trace[k], e);
    }
  }

  lemma ProperFits(st: State, e: Event)
    requires Proper(st, e)
    ensures e.i < |st.hub.bars| == |st.hub.shadows|
  {}

  lemma UniqsAreApart(bars: seq<Bar>, i: nat, j: nat)
    requires AllGood(bars) && Fits(bars) && i < j < |bars|
    ensures var a := AllocAll(bars, |bars|);
            && |a.shadows| == |bars|
            && (IsIo(a.shadows[i].uniq) == IsIo(a.shadows[j].uniq) ==>
                  a.shadows[i].uniq + a.shadows[i].size <= a.shadows[j].uniq)
  {
    hide AllocAll; hide AllGood; hide Fits; hide WriteBar;
    StartupIsSound(bars, i, j);
  }

  // Ports and memory are apart anyway.
  lemma KindsAreApart(b: Bar, u: Shadow, c: Bar, w: Shadow)
    requires Paired(b, u) && Paired(c, w)
    requires IsIo(u.uniq) == IsIo(w.uniq) ==> u.uniq + u.size <= w.uniq
    ensures UniqAddr(u) + u.size <= UniqAddr(w) || UniqAddr(w) + w.size <= UniqAddr(u)
  {
    hide Good; hide Flags;
  }

  // The registers of all devices answer to addresses of their own.
  lemma RunsKeepDevicesApart(trace: seq<State>, bars: seq<Bar>, i: nat, j: nat)
    requires IsRun(trace, bars)
    requires var h := trace[|trace| - 1].hub;
             i < |h.bars| && j < |h.bars| && i != j && Answers(h.bars[i]) && Answers(h.bars[j])
    ensures var h := trace[|trace| - 1].hub;
            && |h.bars| == |h.shadows|
            && (h.bars[i].addr + h.shadows[i].size <= h.bars[j].addr
                || h.bars[j].addr + h.shadows[j].size <= h.bars[i].addr)
  {
    hide AllGood; hide Fits; hide Next; hide AllocAll; hide UniqAddr; hide Good; hide RangesAreSettings;
    hide Apart; hide IsSet;
    RunKeepsInv(trace, bars);
    var st := trace[|trace| - 1];
    InvGives(st, i);
    InvGives(st, j);
  }

  // In every run from startup on, refused writes included, each address that a
  // guest has chosen leads to the byte set aside for the register it was chosen
  // for, which is that of the device as soon as it answers, and to no other
  // register that answers.
  lemma RunsReachDevices(trace: seq<State>, bars: seq<Bar>, i: nat, g: nat, k: nat, j: nat)
    requires IsRun(trace, bars)
    requires var st := trace[|trace| - 1];
             (i, g) in st.settings && i < |st.hub.shadows| == |st.hub.bars| && k < st.hub.shadows[i].size
    ensures var st := trace[|trace| - 1];
            var v, s := st.settings[(i, g)], st.hub.shadows[i];
            var x := Remap(st.hub, g, Space(IsIo(v), BaseOf(v)) + k);
            && x == UniqAddr(s) + k
            && (Answers(st.hub.bars[i]) ==> x == st.hub.bars[i].addr + k)
            && (j < |st.hub.bars| && j != i && Answers(st.hub.bars[j]) ==>
                  !(st.hub.bars[j].addr <= x < st.hub.bars[j].addr + st.hub.shadows[j].size))
  {
    hide AllGood; hide Fits; hide Next; hide AllocAll; hide Remap; hide Space; hide BaseOf; hide UniqAddr; hide Good;
    hide RangesAreSettings; hide Apart; hide IsSet;
    RunKeepsInv(trace, bars);
    var st := trace[|trace| - 1];
    RemapReachesDevice(st, i, g, k);
    InvGives(st, i);
    if j < |st.hub.bars| { InvGives(st, j); }
  }

  // A register given an address reads back as that address; probed, it shows
  // its size, as if there were no shadow; others read as before.  A write that
  // is refused shows only where the device holds its own address already.
  lemma ReadsBack(st: State, e: Event, j: nat)
    requires Inv(st) && Proper(st, e) && j < |st.hub.bars| == |st.hub.shadows|
    ensures var h', b, s := Apply(st, e).hub, st.hub.bars[j], st.hub.shadows[j];
            && |h'.bars| == |h'.shadows| == |st.hub.bars|
            && (j != e.i ==> GuestRead(h', j) == GuestRead(st.hub, j))
            && (j == e.i && e.Program? ==> GuestRead(h', j) == e.value)
            && (j == e.i && e.Refuse? ==> GuestRead(h', j) == if b.reg == s.uniq then e.value else b.reg)
            && (j == e.i && e.Probe? ==> GuestRead(h', j) == Negate(b.size) + s.uniq % 2)
  {
    var b, s := st.hub.bars[e.i], st.hub.shadows[e.i];
    InvGives(st, e.i);
    UniqWritten(b, s);
    ProbeWritten(b, s);
    hide Inv; hide WriteBar; hide Paired; hide ClearOf; hide Insert; hide Negate; hide RangeFor; hide UniqAddr;
  }

  // ---- Writes that are refused and offered again ----

  // After the first refusal the packet holds the device's own address, and
  // the shadow takes that for what the guest has chosen from the second on.
  lemma {:induction false} RefusedIs(h: Hub, g: nat, i: nat, v: nat, k: nat)
    requires i < |h.bars| == |h.shadows| && Paired(h.bars[i], h.shadows[i]) && !PassesThrough(v) && k > 0
    ensures !PassesThrough(h.shadows[i].uniq)
    ensures var r := Refused(h, g, i, v, k);
            && r.payload == h.shadows[i].uniq && r.hub.bars == h.bars
            && r.hub.shadows == h.shadows[i := h.shadows[i].(user := if k == 1 then v else h.shadows[i].uniq)]
  {
    hide Insert; hide RangeFor;
    UniqIsHooked(h.bars[i], h.shadows[i]);
    hide Paired; hide PassesThrough;
    if k > 1 { RefusedIs(h, g, i, v, k - 1); } else { assert Refused(h, g, i, v, 0) == Hooked(h, v); }
  }

  lemma UniqIsHooked(b: Bar, s: Shadow)
    requires Paired(b, s)
    ensures !PassesThrough(s.uniq)
  {
    NotOnes(IsIo(s.uniq), BaseOf(s.uniq));
  }

  lemma UniqIsChoosable(b: Bar, s: Shadow)
    requires Paired(b, s) && s.size > 0
    ensures Choosable(s, s.uniq)
  {
    UniqIsHooked(b, s);
    FlagsAdd(IsIo(s.uniq), BaseOf(s.uniq), s.uniq % 2);
    hide Flags;
  }

  // So a register written after k refusals reads back as the guest wrote it
  // exactly if there were none or the guest wrote the device's own address.
  lemma ReadsBackAfterRefusalsIff(h: Hub, g: nat, i: nat, v: nat, k: nat)
    requires i < |h.bars| == |h.shadows| && Paired(h.bars[i], h.shadows[i]) && !PassesThrough(v)
    ensures var r := Refused(h, g, i, v, k);
            && |r.hub.bars| == |r.hub.shadows|
            && GuestRead(GuestWrite(r.hub, g, i, r.payload), i) == (if k == 0 then v else h.shadows[i].uniq)
            && (GuestRead(GuestWrite(r.hub, g, i, r.payload), i) == v <==> k == 0 || v == h.shadows[i].uniq)
  {
    hide Insert; hide RangeFor; hide WriteBar;
    UniqWritten(h.bars[i], h.shadows[i]);
    if k > 0 { RefusedIs(h, g, i, v, k); } else { assert Refused(h, g, i, v, 0) == Hooked(h, v); }
    hide Refused; hide Paired; hide PassesThrough;
  }

  // A refused response may be offered again: the hook leaves its own result.
  lemma ReadHookIsIdempotent(h: Hub, i: nat, x: nat)
    requires i < |h.shadows|
    ensures HookRead(h, i, HookRead(h, i, x)) == HookRead(h, i, x)
  {}

  // The premise on the address is needed: the offset, a 32-bit difference,
  // is right exactly when the guest's address is not above the device's.
  lemma RemapIsRightIff(h: Hub, g: nat, i: nat, v: nat, k: nat)
    requires i < |h.bars| == |h.shadows| && Paired(h.bars[i], h.shadows[i]) && RangesOf(h, g) == []
    requires v < WRAP && !PassesThrough(v) && v % 2 == h.shadows[i].uniq % 2 && k < h.shadows[i].size
    ensures var h', uniq := GuestWrite(h, g, i, v), h.shadows[i].uniq;
            Remap(h', g, Space(IsIo(v), BaseOf(v)) + k) == Space(IsIo(uniq), BaseOf(uniq)) + k <==> v <= uniq
  {
    hide WriteBar; hide Paired; hide Flags; hide Choosable;
    var s := h.shadows[i];
    var h', a := GuestWrite(h, g, i, v), Space(IsIo(v), BaseOf(v)) + k;
    var r := RangeFor(s, v);
    assert RangesOf(h', g) == [r] && Contains(r, a) && Find([r], a) == 0;
    PairedIsSmall(h.bars[i], s);
    if v <= s.uniq {
      Small(s.uniq - v);
      RemapSum(IsIo(v), v, s.uniq, k) by { PairedEnds(h.bars[i], s, k); }
    } else {
      Wraps(s.uniq, v);
      var x := a + (s.uniq - v + WRAP);
      assert x == Space(IsIo(s.uniq), BaseOf(s.uniq)) + k + WRAP;
      assert BaseOf(s.uniq) + k < WRAP by { PairedEnds(h.bars[i], s, k); }
      Small64(x);
    }
  }

  lemma PairedEnds(b: Bar, s: Shadow, k: nat)
    requires Paired(b, s) && k < s.size
    ensures BaseOf(s.uniq) + k < WRAP
  {}

  lemma Wraps(x: nat, v: nat)
    requires x < v < WRAP
    ensures (x - v) % WRAP == x - v + WRAP
  {}
}
