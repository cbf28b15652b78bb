// Ownership and addresses together: who can reach which device.
module SharedDevices {
  import IohSpec
  import Own = IohRuns
  import BarSpec
  import BarProofs
  import Bars = BarRuns

  // Register i belongs to device i / 5.
  datatype State = State(own: Own.State, bars: Bars.State)

  // The tools change ownership; guests write to the registers of devices.
  datatype Event = Tool(t: Own.Event) | Config(guest: nat, b: Bars.Event)

  function Mask(st: State, g: nat): set<nat> { IohSpec.MaskOf(st.own.hub, g) }

  ghost predicate Unique(devices: seq<nat>) {
    forall i, j :: 0 <= i < |devices| && 0 <= j < |devices| && devices[i] == devices[j] ==> i == j
  }

  ghost predicate Good(st: State, devices: seq<nat>) {
    && Own.Accounted(st.own, devices) && Bars.Inv(st.bars) && Unique(devices)
    && |st.bars.hub.bars| == |st.bars.hub.shadows| == 5 * |devices|
  }

  // Configuration space is open to a guest only for devices in its mask.
  ghost predicate Next(st: State, st': State, devices: seq<nat>, e: Event) {
    match e
    case Tool(t) => Own.Next(st.own, st'.own, devices, t) && st'.bars == st.bars
    case Config(g, b) =>
      && Bars.Proper(st.bars, b) && b.i / 5 < |devices|
      && Own.Sees(st.own.hub, devices, g, devices[b.i / 5])
      && (b.Program? || b.Refuse? ==> b.guest == g)
      && st' == State(st.own, Bars.Apply(st.bars, b))
  }

  lemma SeenIsOwned(st: State, devices: seq<nat>, g: nat, i: nat)
    requires Unique(devices) && i / 5 < |devices| && Own.Sees(st.own.hub, devices, g, devices[i / 5])
    ensures i / 5 in Mask(st, g)
  {}

  lemma StepStaysGood(st: State, st': State, devices: seq<nat>, e: Event)
    requires Good(st, devices) && Next(st, st', devices, e)
    ensures Good(st', devices)
  {
    hide Own.Accounted; hide Bars.Inv; hide Bars.Proper; hide Bars.Apply; hide Own.Next; hide Own.Sees;
    if e.Tool? {
      Own.StepIsAccounted(st.own, st'.own, devices, e.t);
    } else {
      Bars.StepKeepsInv(st.bars, e.b);
      Bars.ProperFits(st.bars, e.b);
      Bars.StepKeepsShadows(st.bars, e.b);
    }
  }

  // ---- Where addresses lead ----

  // Address a lies in a range of guest g that was made for register i.
  ghost predicate Leads(st: State, g: nat, a: nat, i: nat) {
    exists r :: r in BarSpec.RangesOf(st.bars.hub, g) && Bars.IsRangeOf(st.bars, g, r, i) && BarSpec.Contains(r, a)
  }

  ghost predicate InRange(st: State, g: nat, a: nat) {
    exists r :: r in BarSpec.RangesOf(st.bars.hub, g) && BarSpec.Contains(r, a)
  }

  // Register i answers at x.
  predicate AnswersAt(h: BarSpec.Hub, i: nat, x: nat) {
    && i < |h.bars| == |h.shadows| && Bars.Answers(h.bars[i])
    && h.bars[i].addr <= x < h.bars[i].addr + h.shadows[i].size
  }

  // Where an access of guest g to a ends up.
  predicate Reaches(st: State, g: nat, a: nat, i: nat) {
    AnswersAt(st.bars.hub, i, BarSpec.Remap(st.bars.hub, g, a))
  }

  lemma LeadsIsRemap(st: State, devices: seq<nat>, g: nat, a: nat, i: nat)
    requires Good(st, devices) && Leads(st, g, a, i)
    ensures i < |st.bars.hub.bars| == |st.bars.hub.shadows|
    ensures var s := st.bars.hub.shadows[i];
            Bars.UniqAddr(s) <= BarSpec.Remap(st.bars.hub, g, a) < Bars.UniqAddr(s) + s.size
    ensures Bars.Answers(st.bars.hub.bars[i]) ==> st.bars.hub.bars[i].addr == Bars.UniqAddr(st.bars.hub.shadows[i])
  {
    hide Own.Accounted; hide Bars.Inv; hide BarSpec.Remap; hide Bars.IsRangeOf; hide BarSpec.RangesOf;
    hide Bars.UniqAddr; hide BarProofs.Good;
    var r :| r in BarSpec.RangesOf(st.bars.hub, g) && Bars.IsRangeOf(st.bars, g, r, i) && BarSpec.Contains(r, a);
    Bars.RangeLeads(st.bars, i, g, r, a - r.start);
    Bars.InvGives(st.bars, i);
  }

  lemma InRangeLeads(st: State, devices: seq<nat>, g: nat, a: nat)
    requires Good(st, devices) && InRange(st, g, a)
    ensures exists i: nat :: Leads(st, g, a, i)
  {
    hide Own.Accounted; hide Bars.IsRangeOf; hide Bars.AllPaired; hide Bars.UniqsApart; hide Bars.IsSet;
    hide Bars.Apart;
    var r :| r in BarSpec.RangesOf(st.bars.hub, g) && BarSpec.Contains(r, a);
    var i: nat :| Bars.IsRangeOf(st.bars, g, r, i);
    assert Leads(st, g, a, i);
  }

  lemma NotInRangePasses(st: State, g: nat, a: nat)
    requires !InRange(st, g, a)
    ensures BarSpec.Remap(st.bars.hub, g, a) == a
  {
    hide BarSpec.RangesOf;
    var rs := BarSpec.RangesOf(st.bars.hub, g);
    assert forall n :: 0 <= n < |rs| ==> rs[n] in rs;
  }

  // Two registers have no byte in common.
  lemma UniqsMeet(st: State, devices: seq<nat>, i: nat, j: nat, x: nat)
    requires Good(st, devices) && i < |st.bars.hub.shadows| && j < |st.bars.hub.shadows|
    requires var s := st.bars.hub.shadows[i]; Bars.UniqAddr(s) <= x < Bars.UniqAddr(s) + s.size
    requires var s := st.bars.hub.shadows[j]; Bars.UniqAddr(s) <= x < Bars.UniqAddr(s) + s.size
    ensures i == j
  {
    hide Own.Accounted; hide Bars.UniqAddr; hide Bars.RangesAreSettings; hide Bars.Apart; hide Bars.IsSet;
  }

  lemma AnswersAtUniq(st: State, devices: seq<nat>, i: nat, x: nat)
    requires Good(st, devices) && AnswersAt(st.bars.hub, i, x)
    ensures var s := st.bars.hub.shadows[i]; Bars.UniqAddr(s) <= x < Bars.UniqAddr(s) + s.size
  {
    hide Own.Accounted; hide Bars.UniqAddr; hide Bars.Inv; hide BarProofs.Good;
    Bars.InvGives(st.bars, i);
  }

  // An access reaches a register that answers in two ways: through a range of
  // the guest's own, or by the register's own address where the guest has no
  // range, whoever owns the device.
  lemma ReachesIff(st: State, devices: seq<nat>, g: nat, a: nat, i: nat)
    requires Good(st, devices)
    ensures Reaches(st, g, a, i) <==>
            && i < |st.bars.hub.bars| && Bars.Answers(st.bars.hub.bars[i])
            && (Leads(st, g, a, i) || (!InRange(st, g, a) && AnswersAt(st.bars.hub, i, a)))
  {
    hide Good; hide BarSpec.Remap; hide Bars.UniqAddr; hide Bars.IsRangeOf; hide BarSpec.RangesOf;
    var x := BarSpec.Remap(st.bars.hub, g, a);
    if Leads(st, g, a, i) { LeadsIsRemap(st, devices, g, a, i); }
    if InRange(st, g, a) {
      InRangeLeads(st, devices, g, a);
      var j: nat :| Leads(st, g, a, j);
      LeadsIsRemap(st, devices, g, a, j);
      if Reaches(st, g, a, i) {
        AnswersAtUniq(st, devices, i, x);
        UniqsMeet(st, devices, i, j, x);
      }
    } else {
      NotInRangePasses(st, g, a);
    }
  }

  // What address a of guest g reaches, if anything, is a device of its own.
  ghost predicate OnlyOwn(st: State, g: nat, a: nat) {
    forall i: nat :: Reaches(st, g, a, i) ==> i / 5 in Mask(st, g)
  }

  // Exactly if the address lies in a range for a device of its own (or for a
  // register that does not answer yet), or in no range of the guest and at no
  // register of a foreign device.
  lemma OnlyOwnIff(st: State, devices: seq<nat>, g: nat, a: nat)
    requires Good(st, devices)
    ensures OnlyOwn(st, g, a) <==>
            || (exists i: nat :: Leads(st, g, a, i) && i < |st.bars.hub.bars|
                            && (i / 5 in Mask(st, g) || !Bars.Answers(st.bars.hub.bars[i])))
            || (!InRange(st, g, a) && forall i: nat :: AnswersAt(st.bars.hub, i, a) ==> i / 5 in Mask(st, g))
  {
    hide Good; hide Mask; hide Leads; hide Reaches; hide AnswersAt; hide InRange;
    forall i: nat
      ensures Reaches(st, g, a, i) <==>
              && i < |st.bars.hub.bars| && Bars.Answers(st.bars.hub.bars[i])
              && (Leads(st, g, a, i) || (!InRange(st, g, a) && AnswersAt(st.bars.hub, i, a)))
    {
      ReachesIff(st, devices, g, a, i);
    }
    AnswersAtGives(st.bars.hub);
    if InRange(st, g, a) {
      InRangeLeads(st, devices, g, a);
      var j: nat :| Leads(st, g, a, j);
      forall i: nat | Leads(st, g, a, i)
        ensures i == j && i < |st.bars.hub.bars|
      {
        LeadsToOne(st, devices, g, a, i, j);
      }
    } else {
      LeadsIsInRange(st, g, a);
    }
  }

  lemma AnswersAtGives(h: BarSpec.Hub)
    ensures forall i: nat, x: nat :: AnswersAt(h, i, x) ==> i < |h.bars| && Bars.Answers(h.bars[i])
  {}

  lemma LeadsIsInRange(st: State, g: nat, a: nat)
    ensures forall i: nat :: Leads(st, g, a, i) ==> InRange(st, g, a)
  {
    hide Bars.IsRangeOf; hide BarSpec.RangesOf;
  }

  lemma LeadsToOne(st: State, devices: seq<nat>, g: nat, a: nat, i: nat, j: nat)
    requires Good(st, devices) && Leads(st, g, a, i) && Leads(st, g, a, j)
    ensures i == j && i < |st.bars.hub.bars|
  {
    hide Good; hide BarSpec.Remap; hide Bars.UniqAddr; hide Leads;
    LeadsIsRemap(st, devices, g, a, i);
    LeadsIsRemap(st, devices, g, a, j);
    UniqsMeet(st, devices, i, j, BarSpec.Remap(st.bars.hub, g, a));
  }

  // All that a guest can reach is its own exactly if it owns every answering
  // device that it has given an address, and its ranges hide every byte of the
  // answering devices of others.
  ghost predicate Confined(st: State, g: nat) { forall a: nat :: OnlyOwn(st, g, a) }

  lemma ConfinedIff(st: State, devices: seq<nat>, g: nat)
    requires Good(st, devices)
    ensures Confined(st, g) <==>
            && (forall i: nat, a: nat ::
                  Leads(st, g, a, i) && i < |st.bars.hub.bars| && Bars.Answers(st.bars.hub.bars[i]) ==>
                  i / 5 in Mask(st, g))
            && (forall i: nat, a: nat :: AnswersAt(st.bars.hub, i, a) && i / 5 !in Mask(st, g) ==> InRange(st, g, a))
  {
    hide Good; hide Mask; hide Leads; hide Reaches; hide AnswersAt; hide InRange;
    forall i: nat, a: nat
      ensures Reaches(st, g, a, i) <==>
              && i < |st.bars.hub.bars| && Bars.Answers(st.bars.hub.bars[i])
              && (Leads(st, g, a, i) || (!InRange(st, g, a) && AnswersAt(st.bars.hub, i, a)))
    {
      ReachesIff(st, devices, g, a, i);
    }
    AnswersAtGives(st.bars.hub);
    if Confined(st, g) {
      forall i: nat, a: nat | AnswersAt(st.bars.hub, i, a) && i / 5 !in Mask(st, g)
        ensures InRange(st, g, a)
      {
        assert OnlyOwn(st, g, a);
      }
      forall i: nat, a: nat | Leads(st, g, a, i) && i < |st.bars.hub.bars| && Bars.Answers(st.bars.hub.bars[i])
        ensures i / 5 in Mask(st, g)
      {
        assert OnlyOwn(st, g, a) && Reaches(st, g, a, i);
      }
    }
  }

  // ---- Through the ranges of a guest ----

  // All ranges of a guest lead to devices of its own.
  ghost predicate LeadsHome(st: State, g: nat) {
    forall a: nat, i: nat :: Leads(st, g, a, i) ==> i / 5 in Mask(st, g)
  }

  ghost predicate SetOwn(st: State, g: nat) {
    forall i :: (i, g) in st.bars.settings ==> i / 5 in Mask(st, g)
  }

  lemma LeadsHomeIffSetOwn(st: State, devices: seq<nat>, g: nat)
    requires Good(st, devices)
    ensures LeadsHome(st, g) <==> SetOwn(st, g)
  {
    hide Own.Accounted; hide Bars.Inv; hide Mask; hide BarSpec.RangesOf;
    forall i | (i, g) in st.bars.settings
      ensures exists a :: Leads(st, g, a, i)
    {
      Bars.SetGives(st.bars, i, g);
      var r := BarSpec.RangeFor(st.bars.hub.shadows[i], st.bars.settings[(i, g)]);
      assert Bars.IsRangeOf(st.bars, g, r, i) && BarSpec.Contains(r, r.start);
      assert Leads(st, g, r.start, i);
    }
  }

  // ---- Which steps keep it ----

  // What a release takes from the guest: a list with no known device takes all.
  predicate Loses(devices: seq<nat>, pciids: seq<nat>, d: nat) {
    IohSpec.DeviceMaskOf(devices, pciids) == {} || d in IohSpec.DeviceMaskOf(devices, pciids)
  }

  // A release that a careful caller would make: nothing that the guest has
  // given an address.
  ghost predicate Careful(st: State, devices: seq<nat>, e: Event) {
    e.Tool? && e.t.ReleaseFrom? ==>
      forall i :: (i, e.t.dsid) in st.bars.settings ==> !Loses(devices, e.t.pciids, i / 5)
  }

  lemma ToolKeeps(st: State, st': State, devices: seq<nat>, t: Own.Event, g: nat)
    requires Good(st, devices) && Own.Next(st.own, st'.own, devices, t) && st'.bars == st.bars
    ensures t.AssignTo? || t.dsid != g ==> Mask(st, g) <= Mask(st', g)
    ensures t.ReleaseFrom? && t.dsid == g ==>
      forall d :: d in Mask(st', g) <==> d in Mask(st, g) && !Loses(devices, t.pciids, d)
  {
    hide Own.Inv; hide IohSpec.MaskOf; hide IohSpec.Assign; hide IohSpec.Release; hide Bars.Inv; hide Own.Net;
    var mask := IohSpec.DeviceMaskOf(devices, t.pciids);
    if t.AssignTo? {
      Own.AssignSteps(st.own.hub, t.dsid, mask, g);
    } else {
      Own.ReleaseSteps(st.own.hub, t.dsid, mask, g);
      if t.dsid == g { NoRowNoMask(st, devices, g, mask); }
    }
  }

  lemma NoRowNoMask(st: State, devices: seq<nat>, g: nat, mask: set<nat>)
    requires Good(st, devices)
    ensures IohSpec.Release(st.own.hub, g, mask).code != IohSpec.OK ==> Mask(st, g) == {}
  {
    hide Bars.Inv; hide Own.Net;
    Own.ReleaseSteps(st.own.hub, g, mask, g);
    if forall r :: !Own.IsRowOf(st.own.hub, g, r) { Own.NoRowNoMask(st.own.hub, g, 0); }
  }

  // Every step keeps the ranges of a guest at home, but for a release: that
  // does exactly when the guest has given no address to what it takes.
  lemma StepLeadsHomeIff(st: State, st': State, devices: seq<nat>, e: Event, g: nat)
    requires Good(st, devices) && Next(st, st', devices, e) && LeadsHome(st, g)
    ensures LeadsHome(st', g) <==> (e.Tool? && e.t.dsid == g ==> Careful(st, devices, e))
  {
    hide LeadsHome; hide Good; hide Mask; hide Bars.Proper; hide Own.Sees; hide Own.Next; hide IohSpec.DeviceMaskOf;
    StepStaysGood(st, st', devices, e);
    LeadsHomeIffSetOwn(st, devices, g);
    LeadsHomeIffSetOwn(st', devices, g);
    match e
    case Tool(t) =>
      ToolKeeps(st, st', devices, t, g);
      hide Loses;
    case Config(h, b) =>
      GoodIsUnique(st, devices);
      SeenIsOwned(st, devices, h, b.i);
      assert Mask(st', g) == Mask(st, g) by { SameMask(st, st', g); }
      hide BarSpec.GuestWrite; hide BarSpec.HookWrite;
  }

  lemma SameMask(st: State, st': State, g: nat)
    requires st'.own == st.own
    ensures Mask(st', g) == Mask(st, g)
  {}

  lemma GoodIsUnique(st: State, devices: seq<nat>)
    requires Good(st, devices)
    ensures Unique(devices)
  {}

  // ---- Runs ----

  ghost predicate IsRun(trace: seq<State>, es: seq<Event>, devices: seq<nat>) {
    && |trace| == |es| + 1 && Good(trace[0], devices) && trace[0].bars.settings == map[]
    && forall k :: 0 <= k < |es| ==> Next(trace[k], trace[k + 1], devices, es[k])
  }

  // The start: the zeroed table of owners, and the registers as startup leaves
  // them.
  ghost predicate Starts(st: State, devices: seq<nat>, bars: seq<BarSpec.Bar>) {
    && st.own.log == [] && |st.own.hub.tags| == |devices| && Unique(devices)
    && (forall r :: 0 <= r < |st.own.hub.rows| ==> st.own.hub.rows[r] == Own.ZERO_ROW)
    && (forall d :: 0 <= d < |devices| ==> st.own.hub.tags[d] == IohSpec.NO_DSID)
    && Bars.IsRun([st.bars], bars) && |bars| == 5 * |devices|
  }

  lemma StartIsGood(st: State, devices: seq<nat>, bars: seq<BarSpec.Bar>)
    requires Starts(st, devices, bars)
    ensures IsRun([st], [], devices)
  {
    hide Own.Accounted; hide Bars.Inv;
    Own.StartIsAccounted(st.own, devices);
    Bars.RunKeepsInv([st.bars], bars);
    assert [st.bars][0] == st.bars;
    BarProofs.AllocIs(bars, |bars|);
  }

  // If every release is a careful one, the ranges of all guests stay at home,
  // and what a guest reaches through them is its own.
  lemma {:induction false} CarefulRunsLeadHome(trace: seq<State>, es: seq<Event>, devices: seq<nat>, g: nat)
    requires IsRun(trace, es, devices) && forall k :: 0 <= k < |es| ==> Careful(trace[k], devices, es[k])
    ensures Good(trace[|es|], devices) && LeadsHome(trace[|es|], g)
    ensures forall a: nat :: InRange(trace[|es|], g, a) ==> OnlyOwn(trace[|es|], g, a)
    decreases |es|
  {
    hide Good; hide Next; hide Careful; hide Leads; hide OnlyOwn; hide InRange;
    if es != [] {
      var n := |es| - 1;
      CarefulRunsLeadHome(trace[..n + 1], es[..n], devices, g);
      StepStaysGood(trace[n], trace[n + 1], devices, es[n]);
      hide LeadsHome;
      StepLeadsHomeIff(trace[n], trace[n + 1], devices, es[n], g);
    } else {
      assert forall a: nat, i: nat :: !Leads(trace[0], g, a, i) by { NothingReached(trace[0], devices, g); }
    }
    forall a: nat | InRange(trace[|es|], g, a)
      ensures OnlyOwn(trace[|es|], g, a)
    {
      HomeIsOwn(trace[|es|], devices, g, a);
    }
  }

  lemma HomeIsOwn(st: State, devices: seq<nat>, g: nat, a: nat)
    requires Good(st, devices) && LeadsHome(st, g) && InRange(st, g, a)
    ensures OnlyOwn(st, g, a)
  {
    hide Good; hide Leads; hide InRange; hide Mask;
    OnlyOwnIff(st, devices, g, a);
    InRangeLeads(st, devices, g, a);
    var i: nat :| Leads(st, g, a, i);
    LeadsToOne(st, devices, g, a, i, i);
  }

  // But a guest that has given no address to anything reaches every device
  // that answers, at the device's own address, also in careful runs and
  // without having any device.
  lemma StrangerReaches(trace: seq<State>, es: seq<Event>, devices: seq<nat>, g: nat, j: nat, k: nat)
    requires IsRun(trace, es, devices)
    requires forall i :: (i, g) !in trace[|es|].bars.settings
    requires var h := trace[|es|].bars.hub;
             j < |h.bars| == |h.shadows| && Bars.Answers(h.bars[j]) && k < h.shadows[j].size
    ensures Reaches(trace[|es|], g, trace[|es|].bars.hub.bars[j].addr + k, j)
  {
    var st := trace[|es|];
    RunStaysGood(trace, es, devices);
    var a := st.bars.hub.bars[j].addr + k;
    ReachesIff(st, devices, g, a, j);
    hide Reaches; hide IsRun; hide Good;
    if InRange(st, g, a) { InRangeIsSet(st, devices, g, a); }
  }

  lemma InRangeIsSet(st: State, devices: seq<nat>, g: nat, a: nat)
    requires Good(st, devices) && InRange(st, g, a)
    ensures exists i: nat :: (i, g) in st.bars.settings
  {
    hide Good;
    InRangeLeads(st, devices, g, a);
    var i: nat :| Leads(st, g, a, i);
    assert (i, g) in st.bars.settings;
  }

  // For instance: guest 1 is given the first device and programs its first
  // register; guest 2 has nothing and reaches it.
  lemma StrangerExists(st: State, devices: seq<nat>, bars: seq<BarSpec.Bar>) returns (trace: seq<State>, es: seq<Event>)
    requires Starts(st, devices, bars) && devices != [] && st.own.hub.rows != [] && bars[0].size > 0
    ensures IsRun(trace, es, devices) && trace[0] == st
    ensures forall k :: 0 <= k < |es| ==> Careful(trace[k], devices, es[k])
    ensures Mask(trace[|es|], 2) == {} && |trace[|es|].bars.hub.bars| > 0
    ensures Reaches(trace[|es|], 2, trace[|es|].bars.hub.bars[0].addr, 0)
  {
    hide Good; hide Next; hide Reaches; hide Mask; hide Bars.IsRun; hide Unique;
    StartIsGood(st, devices, bars);
    assert [st][0] == st;
    var st1 := FirstIsAssigned(st, devices, bars);
    var e2, st2 := FirstIsProgrammed(st, st1, devices, bars);
    trace, es := [st, st1, st2], [Tool(Own.AssignTo(1, [devices[0]])), e2];
    assert Mask(st2, 2) == Mask(st1, 2) by { SameMask(st1, st2, 2); }
    StrangerReaches(trace, es, devices, 2, 0, 0);
  }

  lemma FirstIsAssigned(st: State, devices: seq<nat>, bars: seq<BarSpec.Bar>) returns (st1: State)
    requires Starts(st, devices, bars) && Good(st, devices) && devices != [] && st.own.hub.rows != []
    ensures Next(st, st1, devices, Tool(Own.AssignTo(1, [devices[0]]))) && st1.bars == st.bars
    ensures 0 in Mask(st1, 1) && Mask(st1, 2) == {}
  {
    hide Bars.Inv; hide Bars.IsRun; hide Own.Net;
    var h, e := st.own.hub, Own.AssignTo(1, [devices[0]]);
    var mask := IohSpec.DeviceMaskOf(devices, e.pciids);
    assert e.pciids[..0] == [] && IohSpec.DeviceOf(devices, devices[0]) == 0;
    assert 0 in mask;
    hide IohSpec.DeviceMaskOf;
    Own.NoRowNoMask(h, 1, 0);
    Own.NoRowNoMask(h, 2, 0);
    assert Own.IsFree(h, 0);
    Own.ScanFinds(h, 1, 0, -1);
    Own.AssignSteps(h, 1, mask, 1);
    Own.AssignSteps(h, 1, mask, 2);
    var a := IohSpec.Assign(h, 1, mask);
    st1 := State(Own.State(a.hub, st.own.log + [Own.Logged(e, a.code)]), st.bars);
  }

  lemma FirstIsProgrammed(st: State, st1: State, devices: seq<nat>, bars: seq<BarSpec.Bar>)
    returns (e: Event, st2: State)
    requires Starts(st, devices, bars) && Good(st, devices) && devices != [] && bars[0].size > 0
    requires st1.bars == st.bars && 0 in Mask(st1, 1)
    ensures Next(st1, st2, devices, e) && e.Config? && st2.own == st1.own
    ensures forall i :: (i, 2) !in st2.bars.settings
    ensures |st2.bars.hub.bars| == |st2.bars.hub.shadows| > 0 && Bars.Answers(st2.bars.hub.bars[0])
    ensures st2.bars.hub.shadows[0].size > 0
  {
    hide Own.Accounted; hide Bars.Inv; hide BarSpec.WriteBar;
    BarProofs.AllocIs(bars, |bars|);
    hide BarSpec.AllocAll;
    var b, s := st.bars.hub.bars[0], st.bars.hub.shadows[0];
    assert BarProofs.ShadowFits(bars, BarSpec.AllocAll(bars, |bars|), 0);
    Bars.InvGives(st.bars, 0);
    Bars.UniqIsHooked(b, s);
    Bars.UniqWritten(b, s);
    Bars.UniqIsChoosable(b, s);
    hide Bars.Paired; hide Bars.Choosable; hide BarSpec.PassesThrough;
    e := Config(1, Bars.Program(0, 1, s.uniq));
    st2 := State(st1.own, Bars.Apply(st1.bars, e.b));
    assert Own.Sees(st1.own.hub, devices, 1, devices[0]);
  }

  lemma NothingReached(st: State, devices: seq<nat>, g: nat)
    requires st.bars.settings == map[]
    ensures forall a: nat, i: nat :: !Leads(st, g, a, i)
  {}

  // Addresses are never taken back: once a guest has given a register an
  // address, that address leads to the device for ever, whoever owns it.
  lemma {:induction false} AddressesStay(trace: seq<State>, es: seq<Event>, devices: seq<nat>, k: nat, g: nat,
                                         a: nat, i: nat)
    requires IsRun(trace, es, devices) && k <= |es| && Leads(trace[k], g, a, i)
    ensures Good(trace[|es|], devices) && Leads(trace[|es|], g, a, i)
    decreases |es| - k, |es|
  {
    hide Next; hide Good; hide Leads;
    RunStaysGood(trace, es, devices);
    if k < |es| {
      StepKeepsLeads(trace[k], trace[k + 1], devices, es[k], g, a, i) by {
        RunStaysGood(trace[..k + 1], es[..k], devices);
      }
      AddressesStay(trace, es, devices, k + 1, g, a, i);
    }
  }

  lemma {:induction false} RunStaysGood(trace: seq<State>, es: seq<Event>, devices: seq<nat>)
    requires IsRun(trace, es, devices)
    ensures Good(trace[|es|], devices)
    decreases |es|
  {
    hide Good; hide Next;
    if es != [] {
      var n := |es| - 1;
      RunStaysGood(trace[..n + 1], es[..n], devices);
      StepStaysGood(trace[n], trace[n + 1], devices, es[n]);
    }
  }

  lemma StepKeepsLeads(st: State, st': State, devices: seq<nat>, e: Event, g: nat, a: nat, i: nat)
    requires Good(st, devices) && Next(st, st', devices, e) && Leads(st, g, a, i)
    ensures Leads(st', g, a, i)
  {
    hide Own.Accounted; hide Bars.Inv; hide Bars.Apply; hide Own.Next; hide Own.Sees; hide Bars.Proper;
    if e.Config? {
      Bars.StepKeepsRanges(st.bars, e.b) by { assert Bars.Proper(st.bars, e.b); }
      var r :| r in BarSpec.RangesOf(st.bars.hub, g) && Bars.IsRangeOf(st.bars, g, r, i) && BarSpec.Contains(r, a);
      hide Bars.IsRangeOf; hide BarSpec.RangesOf;
      assert r in BarSpec.RangesOf(st'.bars.hub, g) && Bars.IsRangeOf(st'.bars, g, r, i);
    }
  }

  // So a guest that has lost a device still reaches it, and a careless release
  // is never made good but by giving the device back.
  lemma LostButReached(trace: seq<State>, es: seq<Event>, devices: seq<nat>, k: nat, g: nat, a: nat, i: nat)
    requires IsRun(trace, es, devices) && k <= |es| && Leads(trace[k], g, a, i)
    ensures Good(trace[|es|], devices) && i < |trace[|es|].bars.hub.bars| == |trace[|es|].bars.hub.shadows|
    ensures Bars.Answers(trace[|es|].bars.hub.bars[i]) ==> Reaches(trace[|es|], g, a, i)
    ensures LeadsHome(trace[|es|], g) ==> i / 5 in Mask(trace[|es|], g)
  {
    AddressesStay(trace, es, devices, k, g, a, i);
    hide *;
    LeadsReaches(trace[|es|], devices, g, a, i);
    if LeadsHome(trace[|es|], g) { HomeOwns(trace[|es|], g, a, i); }
  }

  lemma LeadsReaches(st: State, devices: seq<nat>, g: nat, a: nat, i: nat)
    requires Good(st, devices) && Leads(st, g, a, i)
    ensures i < |st.bars.hub.bars| == |st.bars.hub.shadows|
    ensures Bars.Answers(st.bars.hub.bars[i]) ==> Reaches(st, g, a, i)
  {
    hide Good; hide Leads; hide Reaches;
    LeadsIsRemap(st, devices, g, a, i);
    ReachesIff(st, devices, g, a, i);
  }

  lemma HomeOwns(st: State, g: nat, a: nat, i: nat)
    requires LeadsHome(st, g) && Leads(st, g, a, i)
    ensures i / 5 in Mask(st, g)
  {}
}
